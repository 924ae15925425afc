/** The budgeted prompt assembler (src/prompt.py): each hit becomes a text block, the
    blocks are appended to the user turn while the running length stays within the
    character budget, the first block that does not fit is cut and wrapped in the
    truncation marker, and the user's own text always closes the turn in full. */
module Prompt {
  import opened Wrappers
  import opened Seqs
  import opened Hits
  import opened Messages
  import Constants

  /** The components cell: comma-joined, or NO VALUE when there are none. */
  function ComponentsText(components: seq<string>): string
  {
    if components == [] then Constants.NoValue else Join(components, ",")
  }

  /** The `k: v` lines of the keys the template does not name, in dictionary order. */
  function ExtraLines(fs: seq<Field>): string
  {
    Join(seq(|fs|, i requires 0 <= i < |fs| => fs[i].key + ": " + fs[i].value), "\n")
  }

  /** The filled template followed by the extra lines; `showScore` is Python's `str` of a float. */
  function ResultBody(h: Hit, showScore: real -> string): string
  {
    Constants.SearchResultsTemplate(
      h.kind.GetOr(Constants.NoValue),
      h.text.GetOr(Constants.NoValue),
      if h.score.Some? then showScore(h.score.value) else Constants.NoValue,
      ComponentsText(h.components))
    + ExtraLines(h.others)
  }

  /** `search_result_to_str`. */
  function SearchResultToStr(h: Hit, showScore: real -> string): string
  {
    ResultBody(h, showScore) + "\n---\n"
  }

  /** A block opens with the template's kind and text lines (NO VALUE for a missing
      field) and closes with the separator line. */
  lemma SearchResultToStrShape(h: Hit, showScore: real -> string)
    ensures var head := "---\n\nkind: " + h.kind.GetOr(Constants.NoValue) + "\ntext: " + h.text.GetOr(Constants.NoValue) + "\nscore: ";
            head <= SearchResultToStr(h, showScore)
    ensures EndsWith(SearchResultToStr(h, showScore), "\n---\n")
  {
    var body := ResultBody(h, showScore);
    EndsWithAppend(body, "\n---\n");
    var head := "---\n\nkind: " + h.kind.GetOr(Constants.NoValue) + "\ntext: " + h.text.GetOr(Constants.NoValue) + "\nscore: ";
    assert body[..|head|] == head;
    PrefixOfAppend(body, "\n---\n");
  }

  /** `search_result_to_str` for a given printing of scores, as a function of the hit. */
  function Render(showScore: real -> string): Hit -> string
  {
    h => SearchResultToStr(h, showScore)
  }

  /** The blocks of the hits, each rendered by `render`, in order. */
  function Blocks(results: seq<Hit>, render: Hit -> string): (bs: seq<string>)
    ensures |bs| == |results|
    ensures forall i :: 0 <= i < |results| ==> bs[i] == render(results[i])
  {
    seq(|results|, i requires 0 <= i < |results| => render(results[i]))
  }

  /** `approx_max_chars = generative_model_max_context * 3 * 0.75`, in exact arithmetic. */
  function ApproxMaxChars(maxContext: int): real
  {
    (maxContext * 3) as real * 0.75
  }

  /** Python's `int()` of a float: truncation toward zero. */
  function PyInt(x: real): int
  {
    if x >= 0.0 then x.Floor else -((-x).Floor)
  }

  /** The budget check `current_prompt_len > approx_max_chars`. The budget is `9/4` of the
      context size, so the check is exact in whole quarters. */
  predicate OverBudget(current: int, maxContext: int)
  {
    4 * current > 9 * maxContext
  }

  lemma OverBudgetIsFloatCheck(current: int, maxContext: int)
    ensures OverBudget(current, maxContext) <==> current as real > ApproxMaxChars(maxContext)
  {
  }

  /** `trim_len = int(current_prompt_len - approx_max_chars)` once the check has fired:
      the overshoot rounded down to whole characters. */
  function TrimLen(current: int, maxContext: int): (n: int)
    requires OverBudget(current, maxContext)
    ensures 0 <= 4 * n <= 4 * current - 9 * maxContext < 4 * n + 4
  {
    (4 * current - 9 * maxContext) / 4
  }

  lemma TrimLenIsPyInt(current: int, maxContext: int)
    requires OverBudget(current, maxContext)
    ensures TrimLen(current, maxContext) == PyInt(current as real - ApproxMaxChars(maxContext))
  {
    var d := current as real - ApproxMaxChars(maxContext);
    assert d == (4 * current - 9 * maxContext) as real / 4.0;
  }

  /** Python's `s[:e]`: a negative end counts from the back; both ends are clamped. */
  function PySliceTo(s: string, e: int): (r: string)
    ensures |r| == if e < 0 then Max(0, |s| + e) else Min(e, |s|)
    ensures r <= s
  {
    if e < 0 then s[..Max(0, |s| + e)] else s[..Min(e, |s|)]
  }

  /** What is left of a block whose check failed at running length `current`:
      `chunk[:-trim_len]`. */
  function CutText(block: string, current: int, maxContext: int): string
    requires OverBudget(current, maxContext)
  {
    PySliceTo(block, -TrimLen(current, maxContext))
  }

  /** The budget check in the loop of `build_prompt`, in floating point as the source
      writes it: whether the prompt would exceed `approx_max_chars`, and if so by how many
      whole characters (`int(...)` of the excess). It is the integer check of the model. */
  method CheckBudget(current: int, maxContext: int) returns (over: bool, trimLen: int)
    ensures over == OverBudget(current, maxContext)
    ensures over ==> trimLen == TrimLen(current, maxContext)
  {
    var approxMaxChars := ApproxMaxChars(maxContext);
    OverBudgetIsFloatCheck(current, maxContext);
    over := current as real > approxMaxChars;
    trimLen := 0;
    if over {
      trimLen := PyInt(current as real - approxMaxChars);
      TrimLenIsPyInt(current, maxContext);
    }
  }

  /** The evidence section built from the blocks: the blocks that went in whole, what is
      left of the block that was cut (if any), and how many blocks went in whole. */
  datatype Section = Section(whole: string, cut: Option<string>, kept: nat)
  {
    /** Whether the budget check fired. */
    predicate Truncated() { cut.Some? }

    /** The section as text: the cut remainder goes in wrapped in the truncation marker. */
    function Text(): string
    {
      if cut.Some? then whole + Constants.SearchResultTruncatedChunk(cut.value) else whole
    }
  }

  /** The budget loop of `build_prompt`, from a running length `run`: a block goes in
      whole while `run + |block| + userLen` is within the budget; the first block that
      fails the check is cut and ends the section. */
  function Assemble(blocks: seq<string>, run: int, userLen: int, maxContext: int): Section
    decreases |blocks|
  {
    if blocks == [] then Section("", None, 0)
    else
      var current := run + |blocks[0]| + userLen;
      if OverBudget(current, maxContext) then Section("", Some(CutText(blocks[0], current, maxContext)), 0)
      else
        var rest := Assemble(blocks[1..], run + |blocks[0]|, userLen, maxContext);
        Section(blocks[0] + rest.whole, rest.cut, rest.kept + 1)
  }

  /** The running length the budget check sees at block `k`: everything before it, the
      block itself and the user text. */
  function LengthAt(blocks: seq<string>, k: nat, run: int, userLen: int): int
    requires k < |blocks|
  {
    run + |Concat(blocks[..k + 1])| + userLen
  }

  lemma ConcatTwo(blocks: seq<string>, n: nat)
    requires 1 <= n <= |blocks|
    ensures Concat(blocks[..n]) == blocks[0] + Concat(blocks[1..][..n - 1])
  {
    ConcatCons(blocks[..n]);
    assert blocks[..n][1..] == blocks[1..][..n - 1];
  }

  /** Every block before `k` passed the budget check. */
  predicate FitsBefore(blocks: seq<string>, k: nat, run: int, userLen: int, maxContext: int)
    requires k <= |blocks|
  {
    forall j :: 0 <= j < k ==> !OverBudget(LengthAt(blocks, j, run, userLen), maxContext)
  }

  lemma LengthAtShift(blocks: seq<string>, k: nat, run: int, userLen: int)
    requires k + 1 < |blocks|
    ensures LengthAt(blocks, k + 1, run, userLen) == LengthAt(blocks[1..], k, run + |blocks[0]|, userLen)
  {
    ConcatTwo(blocks, k + 2);
  }

  /** One step of the budget loop at block `i`. */
  lemma AssembleUnfold(blocks: seq<string>, i: nat, run: int, userLen: int, maxContext: int)
    requires i < |blocks|
    ensures var current := run + |blocks[i]| + userLen;
            Assemble(blocks[i..], run, userLen, maxContext) ==
              if OverBudget(current, maxContext) then Section("", Some(CutText(blocks[i], current, maxContext)), 0)
              else
                var r := Assemble(blocks[i + 1..], run + |blocks[i]|, userLen, maxContext);
                Section(blocks[i] + r.whole, r.cut, r.kept + 1)
  {
    assert blocks[i..][0] == blocks[i];
    assert blocks[i..][1..] == blocks[i + 1..];
  }

  /** The invariant of the assembling loop: after `i` kept blocks (concatenated in
      `acc`, the running length now `run`), what remains to assemble is the tail. */
  predicate Progress(blocks: seq<string>, i: nat, run0: int, run: int, acc: string,
                     userLen: int, maxContext: int)
    requires i <= |blocks|
  {
    var s := Assemble(blocks[i..], run, userLen, maxContext);
    Assemble(blocks, run0, userLen, maxContext) == Section(acc + s.whole, s.cut, s.kept + i)
  }

  /** A block that overflows the budget ends the assembly with its cut. */
  lemma ProgressCut(blocks: seq<string>, i: nat, run0: int, run: int, acc: string,
                    userLen: int, maxContext: int)
    requires i < |blocks| && Progress(blocks, i, run0, run, acc, userLen, maxContext)
    requires OverBudget(run + |blocks[i]| + userLen, maxContext)
    ensures Assemble(blocks, run0, userLen, maxContext) ==
              Section(acc, Some(CutText(blocks[i], run + |blocks[i]| + userLen, maxContext)), i)
  {
    AssembleUnfold(blocks, i, run, userLen, maxContext);
    assert acc + "" == acc;
  }

  /** A block that fits is kept whole and the loop moves on. */
  lemma ProgressKeep(blocks: seq<string>, i: nat, run0: int, run: int, acc: string,
                     userLen: int, maxContext: int)
    requires i < |blocks| && Progress(blocks, i, run0, run, acc, userLen, maxContext)
    requires !OverBudget(run + |blocks[i]| + userLen, maxContext)
    ensures Progress(blocks, i + 1, run0, run + |blocks[i]|, acc + blocks[i], userLen, maxContext)
  {
    AssembleUnfold(blocks, i, run, userLen, maxContext);
    var next := Assemble(blocks[i + 1..], run + |blocks[i]|, userLen, maxContext);
    AppendAssoc(acc, blocks[i], next.whole);
  }

  /** Every block fitted: the assembly is `acc`, uncut. */
  lemma ProgressDone(blocks: seq<string>, run0: int, run: int, acc: string,
                     userLen: int, maxContext: int)
    requires Progress(blocks, |blocks|, run0, run, acc, userLen, maxContext)
    ensures Assemble(blocks, run0, userLen, maxContext) == Section(acc, None, |blocks|)
  {
    assert blocks[|blocks|..] == [];
    assert acc + "" == acc;
  }

  /** The blocks that went in whole are the first `kept` blocks, in order; without a cut
      that is every block. */
  lemma {:induction false} AssembleKept(blocks: seq<string>, run: int, userLen: int, maxContext: int)
    ensures var s := Assemble(blocks, run, userLen, maxContext);
            && s.kept <= |blocks|
            && s.whole == Concat(blocks[..s.kept])
            && (!s.Truncated() ==> s.kept == |blocks| && s.whole == Concat(blocks))
    decreases |blocks|
  {
    assert blocks[..|blocks|] == blocks;
    if blocks != [] {
      var b := blocks[0];
      if !OverBudget(run + |b| + userLen, maxContext) {
        var r := Assemble(blocks[1..], run + |b|, userLen, maxContext);
        AssembleKept(blocks[1..], run + |b|, userLen, maxContext);
        ConcatTwo(blocks, r.kept + 1);
      } else {
        assert blocks[..0] == [];
      }
    } else {
      assert blocks[..0] == [];
    }
  }

  /** With a cut, block `kept` is the first whose check failed, and the remainder is that
      block cut at the running length its check saw. */
  lemma {:induction false} AssembleCutAt(blocks: seq<string>, run: int, userLen: int, maxContext: int)
    ensures var s := Assemble(blocks, run, userLen, maxContext);
            s.Truncated() ==>
              && s.kept < |blocks|
              && OverBudget(LengthAt(blocks, s.kept, run, userLen), maxContext)
              && s.cut.value == CutText(blocks[s.kept], LengthAt(blocks, s.kept, run, userLen), maxContext)
    decreases |blocks|
  {
    if blocks != [] {
      var b := blocks[0];
      ConcatTwo(blocks, 1);
      if !OverBudget(run + |b| + userLen, maxContext) {
        var rest := blocks[1..];
        var r := Assemble(rest, run + |b|, userLen, maxContext);
        AssembleCutAt(rest, run + |b|, userLen, maxContext);
        if r.Truncated() {
          LengthAtShift(blocks, r.kept, run, userLen);
        }
      }
    }
  }

  /** The check fires exactly when everything would not fit: no block is cut unless the
      whole evidence, added to the running length and the user text, exceeds the budget. */
  lemma {:induction false} AssembleTruncatedIff(blocks: seq<string>, run: int, userLen: int, maxContext: int)
    ensures Assemble(blocks, run, userLen, maxContext).Truncated() <==>
              blocks != [] && OverBudget(run + |Concat(blocks)| + userLen, maxContext)
    decreases |blocks|
  {
    if blocks != [] {
      ConcatCons(blocks);
      var b := blocks[0];
      if !OverBudget(run + |b| + userLen, maxContext) {
        AssembleTruncatedIff(blocks[1..], run + |b|, userLen, maxContext);
      }
    }
  }

  /** After every block that went in whole, the running length plus the user text is
      within the budget. */
  lemma {:induction false} AssembleWithinBudget(blocks: seq<string>, run: int, userLen: int, maxContext: int)
    ensures var s := Assemble(blocks, run, userLen, maxContext);
            forall k :: 1 <= k <= s.kept && k <= |blocks| ==>
              !OverBudget(run + |Concat(blocks[..k])| + userLen, maxContext)
    decreases |blocks|
  {
    if blocks != [] {
      var s := Assemble(blocks, run, userLen, maxContext);
      var b := blocks[0];
      if !OverBudget(run + |b| + userLen, maxContext) {
        var rest := blocks[1..];
        AssembleWithinBudget(rest, run + |b|, userLen, maxContext);
        forall k | 1 <= k <= s.kept && k <= |blocks|
          ensures !OverBudget(run + |Concat(blocks[..k])| + userLen, maxContext)
        {
          ConcatCons(blocks[..k]);
          assert blocks[..k][1..] == rest[..k - 1];
          assert blocks[..k][0] == b;
        }
      }
    }
  }

  /** The overshoot bound: when the running length and the user text fit on their own,
      the blocks kept whole and the remainder of the cut block exceed the budget by less
      than one character (in quarters of a character: by less than four). */
  lemma {:induction false} AssembleSlack(blocks: seq<string>, run: int, userLen: int, maxContext: int)
    requires !OverBudget(run + userLen, maxContext)
    ensures var s := Assemble(blocks, run, userLen, maxContext);
            4 * (run + |s.whole| + |s.cut.GetOr("")| + userLen) < 9 * maxContext + 4
    decreases |blocks|
  {
    if blocks != [] {
      var b := blocks[0];
      if !OverBudget(run + |b| + userLen, maxContext) {
        AssembleSlack(blocks[1..], run + |b|, userLen, maxContext);
      }
    }
  }

  /** A block over the budget by less than one character is dropped whole: the cut
      `int(0.75) == 0` makes the slice `block[:-0]`, which is empty in Python. */
  lemma SubCharacterOverflowDropsBlock()
    ensures ApproxMaxChars(1) == 2.25
    ensures Assemble(["abc"], 0, 0, 1).Text() == Constants.SearchResultTruncatedChunk("")
  {
    assert TrimLen(3, 1) == 0;
    TrimLenIsPyInt(3, 1);
  }

  /** The final user turn and the truncation flag of `build_prompt`. */
  datatype Turn = Turn(content: string, truncated: bool)

  /** The user turn built from the evidence blocks: the header and a newline, the
      evidence section, a newline and the user's message. The running length starts at
      `len(str(full_prompt))` of the base thread (`baseLen`) plus the header line. */
  function EvidenceTurn(blocks: seq<string>, userMessage: string, promptHeader: string,
                        baseLen: int, maxContext: int): Turn
  {
    var s := Assemble(blocks, baseLen + |promptHeader| + 1, |userMessage|, maxContext);
    Turn(promptHeader + "\n" + s.Text() + "\n" + userMessage, s.Truncated())
  }

  /** A cut section: the blocks before the first one that failed the check, whole, then
      the marker around what is left of that block. */
  lemma AssembleCutShape(blocks: seq<string>, run: int, userLen: int, maxContext: int)
    requires Assemble(blocks, run, userLen, maxContext).Truncated()
    ensures var s := Assemble(blocks, run, userLen, maxContext);
            s.kept < |blocks| &&
            var current := LengthAt(blocks, s.kept, run, userLen);
            && OverBudget(current, maxContext)
            && FitsBefore(blocks, s.kept, run, userLen, maxContext)
            && s.Text() == Concat(blocks[..s.kept])
                           + Constants.SearchResultTruncatedChunk(CutText(blocks[s.kept], current, maxContext))
  {
    var s := Assemble(blocks, run, userLen, maxContext);
    var k := s.kept;
    AssembleKept(blocks, run, userLen, maxContext);
    AssembleCutAt(blocks, run, userLen, maxContext);
    AssembleWithinBudget(blocks, run, userLen, maxContext);
    assert FitsBefore(blocks, k, run, userLen, maxContext) by {
      forall j | 0 <= j < k
        ensures !OverBudget(LengthAt(blocks, j, run, userLen), maxContext)
      {
        assert LengthAt(blocks, j, run, userLen) == run + |Concat(blocks[..j + 1])| + userLen;
      }
    }
  }

  /** The evidence turn, read off the assembled section. */
  lemma EvidenceTurnOf(blocks: seq<string>, userMessage: string, promptHeader: string,
                       baseLen: int, maxContext: int, s: Section)
    requires Assemble(blocks, baseLen + |promptHeader| + 1, |userMessage|, maxContext) == s
    ensures EvidenceTurn(blocks, userMessage, promptHeader, baseLen, maxContext) ==
              Turn(promptHeader + "\n" + s.Text() + "\n" + userMessage, s.cut.Some?)
  {
  }

  /** The user turn that `build_prompt` appends: the "no results" form when the search
      found nothing, otherwise the evidence turn of the hits' blocks. */
  function FinalUserTurn(results: seq<Hit>, userMessage: string, promptHeader: string,
                         baseLen: int, maxContext: int, showScore: real -> string): Turn
  {
    if results == [] then Turn(promptHeader + Constants.NoResultsFound + "\n" + userMessage, false)
    else EvidenceTurn(Blocks(results, Render(showScore)), userMessage, promptHeader, baseLen, maxContext)
  }

  /** The user turn is the header, then the evidence (or the "no results" line, never
      flagged), then the user's message last, after a newline. */
  lemma FinalUserTurnFraming(results: seq<Hit>, userMessage: string, promptHeader: string,
                             baseLen: int, maxContext: int, showScore: real -> string)
    ensures var t := FinalUserTurn(results, userMessage, promptHeader, baseLen, maxContext, showScore);
            && EndsWith(t.content, "\n" + userMessage)
            && (results == [] ==>
                  t.content == promptHeader + Constants.NoResultsFound + "\n" + userMessage && !t.truncated)
            && (results != [] ==> promptHeader + "\n" <= t.content)
  {
    var t := FinalUserTurn(results, userMessage, promptHeader, baseLen, maxContext, showScore);
    var head, middle := promptHeader + "\n", "";
    if results == [] {
      head, middle := promptHeader, Constants.NoResultsFound;
    } else {
      middle := Assemble(Blocks(results, Render(showScore)), baseLen + |promptHeader| + 1, |userMessage|, maxContext).Text();
    }
    assert t.content == head + middle + "\n" + userMessage;
    AppendAssoc(head + middle, "\n", userMessage);
    EndsWithAppend(head + middle, "\n" + userMessage);
    AppendAssoc(head, middle, "\n" + userMessage);
    PrefixOfAppend(head, middle + ("\n" + userMessage));
  }


  /** The returned flag is set exactly when the evidence did not fit: the base thread,
      the header line, every block and the user's text exceed the budget. */
  lemma EvidenceTruncatedIff(blocks: seq<string>, userMessage: string, promptHeader: string,
                             baseLen: int, maxContext: int)
    ensures EvidenceTurn(blocks, userMessage, promptHeader, baseLen, maxContext).truncated <==>
              blocks != [] &&
              (baseLen + |promptHeader| + 1 + |Concat(blocks)| + |userMessage|) as real > ApproxMaxChars(maxContext)
  {
    var run := baseLen + |promptHeader| + 1;
    AssembleTruncatedIff(blocks, run, |userMessage|, maxContext);
    OverBudgetIsFloatCheck(run + |Concat(blocks)| + |userMessage|, maxContext);
  }

  /** When nothing overflows, the evidence is every block, whole and in order. */
  lemma EvidenceAllKept(blocks: seq<string>, userMessage: string, promptHeader: string,
                        baseLen: int, maxContext: int)
    ensures var t := EvidenceTurn(blocks, userMessage, promptHeader, baseLen, maxContext);
            !t.truncated ==> t.content == promptHeader + "\n" + Concat(blocks) + "\n" + userMessage
  {
    var run := baseLen + |promptHeader| + 1;
    var s := Assemble(blocks, run, |userMessage|, maxContext);
    EvidenceTurnOf(blocks, userMessage, promptHeader, baseLen, maxContext, s);
    AssembleKept(blocks, run, |userMessage|, maxContext);
  }

  /** With a cut, the evidence is the blocks before the first one whose check failed,
      whole, then the truncation marker around what is left of that block. */
  lemma EvidenceCut(blocks: seq<string>, userMessage: string, promptHeader: string,
                    baseLen: int, maxContext: int)
    ensures var t := EvidenceTurn(blocks, userMessage, promptHeader, baseLen, maxContext);
            t.truncated ==>
              exists k :: 0 <= k < |blocks| &&
                var current := LengthAt(blocks, k, baseLen + |promptHeader| + 1, |userMessage|);
                && OverBudget(current, maxContext)
                && FitsBefore(blocks, k, baseLen + |promptHeader| + 1, |userMessage|, maxContext)
                && t.content == promptHeader + "\n" + Concat(blocks[..k])
                                + Constants.SearchResultTruncatedChunk(CutText(blocks[k], current, maxContext))
                                + "\n" + userMessage
  {
    var run := baseLen + |promptHeader| + 1;
    var s := Assemble(blocks, run, |userMessage|, maxContext);
    if s.Truncated() {
      AssembleCutShape(blocks, run, |userMessage|, maxContext);
      var k := s.kept;
      var current := LengthAt(blocks, k, run, |userMessage|);
      var wrapped := Constants.SearchResultTruncatedChunk(CutText(blocks[k], current, maxContext));
      EvidenceTurnOf(blocks, userMessage, promptHeader, baseLen, maxContext, s);
      AppendAssoc(promptHeader + "\n", Concat(blocks[..k]), wrapped);
      var t := EvidenceTurn(blocks, userMessage, promptHeader, baseLen, maxContext);
      assert t.content == promptHeader + "\n" + s.Text() + "\n" + userMessage;
      assert 0 <= k < |blocks| && OverBudget(current, maxContext)
             && FitsBefore(blocks, k, run, |userMessage|, maxContext);
    }
  }


  /** The length guarantee of the assembled turn: if the base thread, the header line and
      the user's text fit the budget, the turn overshoots it by less than the truncation
      marker plus two characters (the sub-character rest of the cut, and the newline
      before the user's text that the running length does not count). */
  lemma EvidenceLengthBound(blocks: seq<string>, userMessage: string, promptHeader: string,
                            baseLen: int, maxContext: int)
    requires (baseLen + |promptHeader| + 1 + |userMessage|) as real <= ApproxMaxChars(maxContext)
    ensures (baseLen + |EvidenceTurn(blocks, userMessage, promptHeader, baseLen, maxContext).content|) as real
              < ApproxMaxChars(maxContext) + 2.0 + |Constants.SearchResultTruncatedChunk("")| as real
  {
    var run := baseLen + |promptHeader| + 1;
    var s := Assemble(blocks, run, |userMessage|, maxContext);
    OverBudgetIsFloatCheck(run + |userMessage|, maxContext);
    AssembleSlack(blocks, run, |userMessage|, maxContext);
    assert |s.Text()| <= |s.whole| + |s.cut.GetOr("")| + |Constants.SearchResultTruncatedChunk("")|;
  }

  /** The budget loop of `build_prompt` as the source runs it: a `for` over the hits that
      renders each one, extends the user turn and the running length, and breaks after
      the first cut. `render` is `search_result_to_str`. */
  method AssembleEvidence(results: seq<Hit>, render: Hit -> string, userMessage: string,
                          promptHeader: string, baseLen: int, maxContext: int)
    returns (fullUserMessage: string, isError: bool)
    requires results != []
    ensures Turn(fullUserMessage, isError) ==
              EvidenceTurn(Blocks(results, render), userMessage, promptHeader, baseLen, maxContext)
  {
    ghost var blocks := Blocks(results, render);
    ghost var run0 := baseLen + |promptHeader| + 1;
    ghost var acc := "";
    ghost var section := Section("", None, 0);
    isError := false;
    fullUserMessage := promptHeader + "\n";
    var fullPromptLen := baseLen + |fullUserMessage|;
    var i := 0;
    while i < |results|
      invariant 0 <= i <= |results|
      invariant !isError
      invariant fullUserMessage == promptHeader + "\n" + acc
      invariant fullPromptLen == run0 + |acc|
      invariant Progress(blocks, i, run0, fullPromptLen, acc, |userMessage|, maxContext)
    {
      var chunk := render(results[i]);
      assert chunk == blocks[i];
      var currentPromptLen := fullPromptLen + |chunk| + |userMessage|;
      var over, trimLen := CheckBudget(currentPromptLen, maxContext);
      if over {
        ProgressCut(blocks, i, run0, fullPromptLen, acc, |userMessage|, maxContext);
        section := Section(acc, Some(CutText(chunk, currentPromptLen, maxContext)), i);
        var truncatedSearchResult := Constants.SearchResultTruncatedChunk(PySliceTo(chunk, -trimLen));
        AppendAssoc(promptHeader + "\n", acc, truncatedSearchResult);
        fullUserMessage := fullUserMessage + truncatedSearchResult;
        fullPromptLen := fullPromptLen + |truncatedSearchResult|;
        isError := true;
        EvidenceTurnOf(blocks, userMessage, promptHeader, baseLen, maxContext, section);
        assert fullUserMessage == promptHeader + "\n" + section.Text();
        break;
      }
      ProgressKeep(blocks, i, run0, fullPromptLen, acc, |userMessage|, maxContext);
      AppendAssoc(promptHeader + "\n", acc, chunk);
      fullUserMessage := fullUserMessage + chunk;
      acc := acc + chunk;
      fullPromptLen := fullPromptLen + |chunk|;
      i := i + 1;
    }
    if !isError {
      ProgressDone(blocks, run0, fullPromptLen, acc, |userMessage|, maxContext);
      section := Section(acc, None, i);
      EvidenceTurnOf(blocks, userMessage, promptHeader, baseLen, maxContext, section);
    }
    fullUserMessage := fullUserMessage + "\n" + userMessage;
  }

  /** `build_prompt`. An empty (or absent) history starts a new thread with the profile's
      system prompt; a non-empty one IS the thread: the user turn is appended to the
      caller's own list. `reprLen` stands for `len(str(...))` of the base thread. The
      warning shown to non-API callers on a cut is reported in `warned`. */
  method BuildPrompt(results: seq<Hit>, userMessage: string, systemPrompt: string,
                     promptHeader: string, history: MessageList?, reprLen: seq<Message> -> nat,
                     maxContext: int, isApi: bool, showScore: real -> string)
    returns (isError: bool, prompt: MessageList, warned: bool)
    modifies history
    ensures var reused := history != null && old(history.items) != [];
            var base := if reused then old(history.items) else [SystemMessage(systemPrompt)];
            var t := FinalUserTurn(results, userMessage, promptHeader, reprLen(base), maxContext, showScore);
            && prompt.items == base + [UserMessage(t.content)]
            && isError == t.truncated
            && warned == (isError && !isApi)
            && (reused ==> prompt == history)
            && (!reused ==> fresh(prompt) && (history != null ==> history.items == old(history.items)))
  {
    isError := false;
    if history == null || history.items == [] {
      prompt := new MessageList([SystemMessage(systemPrompt)]);
    } else {
      prompt := history;
    }
    var fullPromptLen := reprLen(prompt.items);
    var content: string;
    if results == [] {
      content := promptHeader + Constants.NoResultsFound + "\n" + userMessage;
    } else {
      content, isError := AssembleEvidence(results, Render(showScore), userMessage, promptHeader, fullPromptLen, maxContext);
    }
    warned := isError && !isApi;
    prompt.Append(UserMessage(content));
  }
}
