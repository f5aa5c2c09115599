/** Decimal numerals. */
module Decimal {
  predicate IsDigit(c: char) {
    '0' <= c <= '9'
  }

  predicate AllDigits(s: string) {
    forall i :: 0 <= i < |s| ==> IsDigit(s[i])
  }

  function DigitChar(d: nat): (c: char)
    requires d < 10
    ensures IsDigit(c) && DigitValue(c) == d
  {
    (d + '0' as int) as char
  }

  function DigitValue(c: char): (d: nat)
    requires IsDigit(c)
    ensures d < 10
  {
    c as int - '0' as int
  }

  function Show(n: nat): (s: string)
    ensures s != "" && AllDigits(s)
  {
    if n < 10 then [DigitChar(n)] else Show(n / 10) + [DigitChar(n % 10)]
  }

  function ShowInt(n: int): string {
    if n < 0 then "-" + Show(-n) else Show(n)
  }

  function Value(s: string): nat
    requires AllDigits(s)
  {
    if s == "" then 0 else 10 * Value(s[..|s| - 1]) + DigitValue(s[|s| - 1])
  }

  /** A numeral is its digits, most significant first. */
  lemma {:induction false} ValueOfShow(n: nat)
    ensures Value(Show(n)) == n
    ensures n < 10 ==> Show(n) == ["0123456789"[n]]
    ensures n >= 10 ==> Show(n) == Show(n / 10) + ["0123456789"[n % 10]]
  {
    if n >= 10 {
      ValueOfShow(n / 10);
      assert Show(n)[..|Show(n)| - 1] == Show(n / 10);
    }
  }
}

/** The citation-required prompt: context blocks chosen greedily within a token budget. */
module Prompt {
  import opened Prelude
  import opened Sequences
  import opened Decimal

  const I32_MIN := -0x8000_0000
  const I32_MAX := 0x7FFF_FFFF

  type I32 = n: int | I32_MIN <= n <= I32_MAX

  /** Addition of a release build: it wraps around. */
  function WrappingAdd(a: I32, b: I32): (c: I32)
    ensures I32_MIN <= a + b <= I32_MAX ==> c == a + b
    ensures (c - (a + b)) % 0x1_0000_0000 == 0
  {
    if a + b > I32_MAX then a + b - 0x1_0000_0000
    else if a + b < I32_MIN then a + b + 0x1_0000_0000
    else a + b
  }

  datatype PromptChunk = PromptChunk(chunkId: nat, documentId: nat, ord: I32, text: string, tokenCount: I32)

  datatype BuiltPrompt = BuiltPrompt(promptText: string, idMap: seq<nat>, docMap: seq<nat>, ordMap: seq<I32>,
                                     promptTokens: I32, droppedCount: nat)

  const SYSTEM_PROMPT :=
    "You are a careful assistant that answers questions using ONLY the provided context blocks.\n\n"
    + "For every factual claim, cite the supporting block as `[N]` where N is the block number.\n"
    + "Do not invent citations. Do not cite blocks not provided. If the answer is not in the context, say so."

  /** The loop's token count after the first `n` chunks. */
  function Running(chunks: seq<PromptChunk>, budget: I32, n: nat): I32
    requires n <= |chunks|
  {
    if n == 0 then 0
    else
      var sum := WrappingAdd(Running(chunks, budget, n - 1), chunks[n - 1].tokenCount);
      if sum <= budget then sum else Running(chunks, budget, n - 1)
  }

  /** Chunk `k` fits when its turn comes. */
  predicate Takes(chunks: seq<PromptChunk>, budget: I32, k: nat)
    requires k < |chunks|
  {
    WrappingAdd(Running(chunks, budget, k), chunks[k].tokenCount) <= budget
  }

  /** Positions of the chunks taken from the first `n`. */
  function Included(chunks: seq<PromptChunk>, budget: I32, n: nat): (included: seq<nat>)
    requires n <= |chunks|
    ensures forall i :: 0 <= i < |included| ==> included[i] < n
  {
    if n == 0 then []
    else Included(chunks, budget, n - 1) + (if Takes(chunks, budget, n - 1) then [n - 1] else [])
  }

  function Selected(chunks: seq<PromptChunk>, included: seq<nat>): (r: seq<PromptChunk>)
    requires forall i :: 0 <= i < |included| ==> included[i] < |chunks|
    ensures |r| == |included| && forall i :: 0 <= i < |r| ==> r[i] == chunks[included[i]]
  {
    seq(|included|, i requires 0 <= i < |included| => chunks[included[i]])
  }

  function Block(number: nat, text: string): string {
    "[" + Show(number) + "] " + text + "\n\n"
  }

  /** The numbered context blocks `[1] ...`, `[2] ...`. */
  function Blocks(picked: seq<PromptChunk>): string {
    if picked == [] then ""
    else
      var n := |picked| - 1;
      Blocks(picked[..n]) + Block(n + 1, picked[n].text)
  }

  function PromptText(question: string, picked: seq<PromptChunk>): string {
    SYSTEM_PROMPT + "\n\n## Context\n" + Blocks(picked) + "## Question\n" + question + "\n\n## Answer\n"
  }

  /** Where a block stands in the prompt. */
  datatype Place = Place(start: nat, stop: nat)

  ghost predicate BlockAt(text: string, p: Place, i: nat, chunk: PromptChunk) {
    p.start <= p.stop <= |text| && text[p.start..p.stop] == "[" + Show(i + 1) + "] " + chunk.text + "\n\n"
  }

  ghost predicate EachAt(text: string, picked: seq<PromptChunk>, places: seq<Place>) {
    |places| == |picked| && forall i :: 0 <= i < |picked| ==> BlockAt(text, places[i], i, picked[i])
  }

  /** One behind the other, the places cover `from..to`. */
  ghost predicate Cover(places: seq<Place>, from: nat, to: nat) {
    && (forall i, j :: 0 <= i && j == i + 1 < |places| ==> places[i].stop == places[j].start)
    && (if places == [] then from == to else places[0].start == from && places[|places| - 1].stop == to)
  }

  lemma BlockKept(text: string, more: string, p: Place, i: nat, chunk: PromptChunk)
    requires BlockAt(text, p, i, chunk)
    ensures BlockAt(text + more, p, i, chunk)
  {
    assert (text + more)[p.start..p.stop] == text[p.start..p.stop];
  }

  lemma EachKept(text: string, more: string, picked: seq<PromptChunk>, places: seq<Place>)
    requires EachAt(text, picked, places)
    ensures EachAt(text + more, picked, places)
  {
    forall i | 0 <= i < |picked| ensures BlockAt(text + more, places[i], i, picked[i]) {
      BlockKept(text, more, places[i], i, picked[i]);
    }
  }

  lemma EachAppended(text: string, picked: seq<PromptChunk>, places: seq<Place>, chunk: PromptChunk, p: Place)
    requires EachAt(text, picked, places) && BlockAt(text, p, |picked|, chunk)
    ensures EachAt(text, picked + [chunk], places + [p])
  {
    forall i | 0 <= i < |picked| + 1 ensures BlockAt(text, (places + [p])[i], i, (picked + [chunk])[i]) {
      if i < |picked| {
        assert BlockAt(text, places[i], i, picked[i]);
      }
    }
  }

  lemma CoverAppended(places: seq<Place>, from: nat, mid: nat, to: nat)
    requires Cover(places, from, mid)
    ensures Cover(places + [Place(mid, to)], from, to)
  {
  }

  lemma LastPlace(text: string, block: string, n: nat, chunk: PromptChunk)
    requires block == Block(n + 1, chunk.text)
    ensures BlockAt(text + block, Place(|text|, |text + block|), n, chunk)
  {
    assert (text + block)[|text|..|text + block|] == block;
  }

  lemma OneMoreBlock(head: string, front: seq<PromptChunk>, chunk: PromptChunk, before: seq<Place>)
    requires EachAt(head + Blocks(front), front, before) && Cover(before, |head|, |head + Blocks(front)|)
    ensures var text, picked := head + Blocks(front + [chunk]), front + [chunk];
      var places := before + [Place(|head + Blocks(front)|, |text|)];
      EachAt(text, picked, places) && Cover(places, |head|, |text|)
  {
    var text, block := head + Blocks(front), Block(|front| + 1, chunk.text);
    assert head + Blocks(front + [chunk]) == text + block by {
      assert (front + [chunk])[..|front|] == front;
      ConcatAssociative(head, Blocks(front), block);
    }
    EachKept(text, block, front, before);
    LastPlace(text, block, |front|, chunk);
    EachAppended(text + block, front, before, chunk, Place(|text|, |text + block|));
    CoverAppended(before, |head|, |text|, |text + block|);
  }

  /** The blocks stand one after the other behind `head`. */
  lemma {:induction false} BlockPlaces(head: string, picked: seq<PromptChunk>) returns (places: seq<Place>)
    ensures EachAt(head + Blocks(picked), picked, places) && Cover(places, |head|, |head + Blocks(picked)|)
    decreases |picked|
  {
    if picked == [] {
      places := [];
    } else {
      var front, chunk := picked[..|picked| - 1], picked[|picked| - 1];
      var before := BlockPlaces(head, front);
      OneMoreBlock(head, front, chunk, before);
      places := before + [Place(|head + Blocks(front)|, |head + Blocks(front + [chunk])|)];
      assert picked == front + [chunk];
    }
  }

  /** The same with the text of each block spelled out. */
  lemma BlocksStand(head: string, picked: seq<PromptChunk>, text: string) returns (places: seq<Place>)
    requires text == head + Blocks(picked)
    ensures |places| == |picked| && forall i :: 0 <= i < |places| ==>
      && places[i].start <= places[i].stop <= |text|
      && text[places[i].start..places[i].stop] == "[" + Show(i + 1) + "] " + picked[i].text + "\n\n"
    ensures forall i, j :: 0 <= i && j == i + 1 < |places| ==> places[i].stop == places[j].start
    ensures if places == [] then text == head
      else text[..places[0].start] == head && places[|places| - 1].stop == |text|
  {
    places := BlockPlaces(head, picked);
    forall i | 0 <= i < |places|
      ensures places[i].start <= places[i].stop <= |text|
      ensures text[places[i].start..places[i].stop] == "[" + Show(i + 1) + "] " + picked[i].text + "\n\n"
    {
      assert BlockAt(text, places[i], i, picked[i]);
    }
    assert text[..|head|] == head;
  }

  /** Between a head and a tail. */
  lemma PlacesBetween(head: string, tail: string, picked: seq<PromptChunk>) returns (places: seq<Place>)
    ensures var text := head + Blocks(picked) + tail;
      && text[..|head|] == head && text[|text| - |tail|..] == tail
      && EachAt(text, picked, places) && Cover(places, |head|, |text| - |tail|)
  {
    var shown := head + Blocks(picked);
    places := BlockPlaces(head, picked);
    assert (shown + tail)[..|head|] == head;
    assert (shown + tail)[|shown|..] == tail;
    EachKept(shown, tail, picked, places);
  }

  /** The three maps list the picked chunks in their order. */
  predicate MapsList(built: BuiltPrompt, picked: seq<PromptChunk>) {
    && |built.idMap| == |built.docMap| == |built.ordMap| == |picked|
    && forall i :: 0 <= i < |picked| ==>
         && built.idMap[i] == picked[i].chunkId
         && built.docMap[i] == picked[i].documentId
         && built.ordMap[i] == picked[i].ord
  }

  /** The greedy loop. */
  method PickWithinBudget(chunks: seq<PromptChunk>, budget: I32)
    returns (running: I32, included: seq<PromptChunk>, dropped: nat)
    ensures running == Running(chunks, budget, |chunks|)
    ensures included == Selected(chunks, Included(chunks, budget, |chunks|))
    ensures dropped + |included| == |chunks|
  {
    running, included, dropped := 0, [], 0;
    for k := 0 to |chunks|
      invariant running == Running(chunks, budget, k)
      invariant included == Selected(chunks, Included(chunks, budget, k))
      invariant dropped + |included| == k
    {
      var c := chunks[k];
      if WrappingAdd(running, c.tokenCount) <= budget {
        running := WrappingAdd(running, c.tokenCount);
        included := included + [c];
      } else {
        dropped := dropped + 1;
      }
    }
  }

  /** Appends the numbered blocks to the prompt. */
  method WriteBlocks(head: string, included: seq<PromptChunk>) returns (prompt: string, ghost places: seq<Place>)
    ensures prompt == head + Blocks(included)
    ensures |places| == |included| && forall i :: 0 <= i < |places| ==>
      && places[i].start <= places[i].stop <= |prompt|
      && prompt[places[i].start..places[i].stop] == "[" + Show(i + 1) + "] " + included[i].text + "\n\n"
    ensures forall i, j :: 0 <= i && j == i + 1 < |places| ==> places[i].stop == places[j].start
    ensures if places == [] then prompt == head
      else prompt[..places[0].start] == head && places[|places| - 1].stop == |prompt|
  {
    prompt := head;
    for i := 0 to |included|
      invariant prompt == head + Blocks(included[..i])
    {
      assert included[..i + 1][..i] == included[..i];
      var block := Block(i + 1, included[i].text);
      ConcatAssociative(head, Blocks(included[..i]), block);
      prompt := prompt + block;
    }
    assert included[..|included|] == included;
    places := BlocksStand(head, included, prompt);
  }

  /** The text behind `head`, and where it shows which chunk. */
  method WritePrompt(head: string, question: string, included: seq<PromptChunk>)
    returns (text: string, ghost places: seq<Place>)
    ensures text == head + Blocks(included) + "## Question\n" + question + "\n\n## Answer\n"
    ensures |places| == |included| && forall i :: 0 <= i < |places| ==>
      && places[i].start <= places[i].stop <= |text|
      && text[places[i].start..places[i].stop] == "[" + Show(i + 1) + "] " + included[i].text + "\n\n"
    ensures forall i, j :: 0 <= i && j == i + 1 < |places| ==> places[i].stop == places[j].start
    ensures places != [] ==>
      && text[..places[0].start] == head
      && text[places[|places| - 1].stop..] == "## Question\n" + question + "\n\n## Answer\n"
  {
    text, places := WriteBlocks(head, included);
    ghost var tail := "## Question\n" + question + "\n\n## Answer\n";
    assert text + "## Question\n" + question + "\n\n## Answer\n" == text + tail;
    text := text + "## Question\n";
    text := text + question;
    text := text + "\n\n## Answer\n";
    places := PlacesBetween(head, tail, included);
    forall i | 0 <= i < |places|
      ensures places[i].start <= places[i].stop <= |text|
      ensures text[places[i].start..places[i].stop] == "[" + Show(i + 1) + "] " + included[i].text + "\n\n"
    {
      assert BlockAt(text, places[i], i, included[i]);
    }
  }

  /** Steps 3 to 5: the selection, the text behind `head`, and the maps. */
  method BuildBehind(head: string, question: string, chunks: seq<PromptChunk>, budget: I32)
    returns (built: BuiltPrompt, ghost places: seq<Place>)
    ensures var picked := Selected(chunks, Included(chunks, budget, |chunks|));
      && MapsList(built, picked) && |places| == |picked|
      && built.promptText == head + Blocks(picked) + "## Question\n" + question + "\n\n## Answer\n"
      && forall i :: 0 <= i < |places| ==>
           && places[i].start <= places[i].stop <= |built.promptText|
           && built.promptText[places[i].start..places[i].stop] == "[" + Show(i + 1) + "] " + picked[i].text + "\n\n"
    ensures var picked := Selected(chunks, Included(chunks, budget, |chunks|));
      && |built.idMap| == |built.docMap| == |built.ordMap| == |picked|
      && forall i :: 0 <= i < |picked| ==>
           built.idMap[i] == picked[i].chunkId && built.docMap[i] == picked[i].documentId && built.ordMap[i] == picked[i].ord
    ensures built.promptTokens == Running(chunks, budget, |chunks|)
    ensures built.droppedCount + |built.idMap| == |chunks|
    ensures forall i, j :: 0 <= i && j == i + 1 < |places| ==> places[i].stop == places[j].start
    ensures places != [] ==>
      && built.promptText[..places[0].start] == head
      && built.promptText[places[|places| - 1].stop..] == "## Question\n" + question + "\n\n## Answer\n"
  {
    var running, included, dropped := PickWithinBudget(chunks, budget);
    var prompt;
    prompt, places := WritePrompt(head, question, included);
    var n := |included|;
    var ids := seq(n, i requires 0 <= i < n => included[i].chunkId);
    var docs := seq(n, i requires 0 <= i < n => included[i].documentId);
    var ords := seq(n, i requires 0 <= i < n => included[i].ord);
    built := BuiltPrompt(prompt, ids, docs, ords, running, dropped);
  }

  /** The three refusals. */
  method CheckBudget(chunks: seq<PromptChunk>, budget: I32) returns (r: Result<(), CoreError>)
    ensures r.Err? <==> budget <= 0 || chunks == [] || chunks[0].tokenCount > budget
    ensures r.Err? ==> r.error.InvalidConfig?
  {
    if budget <= 0 {
      return Err(InvalidConfig("invalid budget " + ShowInt(budget)));
    }
    if chunks == [] {
      return Err(InvalidConfig("ask: no context chunks"));
    }
    if chunks[0].tokenCount > budget {
      return Err(InvalidConfig("first chunk (" + ShowInt(chunks[0].tokenCount) + " tokens) exceeds budget ("
                               + ShowInt(budget) + ")"));
    }
    return Ok(());
  }

  /** A refusal, or the prompt behind `head`. */
  method BuildChecked(head: string, question: string, chunks: seq<PromptChunk>, budget: I32)
    returns (r: Result<BuiltPrompt, CoreError>, ghost places: seq<Place>)
    ensures r.Err? <==> budget <= 0 || chunks == [] || chunks[0].tokenCount > budget
    ensures r.Err? ==> r.error.InvalidConfig?
    ensures var picked := Selected(chunks, Included(chunks, budget, |chunks|));
      r.Ok? ==>
        && MapsList(r.value, picked) && |places| == |picked|
        && r.value.promptText == head + Blocks(picked) + "## Question\n" + question + "\n\n## Answer\n"
        && forall i :: 0 <= i < |places| ==>
             && places[i].start <= places[i].stop <= |r.value.promptText|
             && r.value.promptText[places[i].start..places[i].stop] == "[" + Show(i + 1) + "] " + picked[i].text + "\n\n"
    ensures r.Ok? ==>
      && r.value.promptTokens == Running(chunks, budget, |chunks|)
      && r.value.droppedCount + |r.value.idMap| == |chunks|
    ensures forall i, j :: 0 <= i && j == i + 1 < |places| ==> places[i].stop == places[j].start
    ensures r.Ok? && places != [] ==>
      && r.value.promptText[..places[0].start] == head
      && r.value.promptText[places[|places| - 1].stop..] == "## Question\n" + question + "\n\n## Answer\n"
  {
    var checked := CheckBudget(chunks, budget);
    if checked.Err? {
      return Err(checked.error), [];
    }
    var built;
    built, places := BuildBehind(head, question, chunks, budget);
    r := Ok(built);
  }

  method BuildAskPrompt(question: string, chunks: seq<PromptChunk>, budget: I32)
    returns (r: Result<BuiltPrompt, CoreError>, ghost places: seq<Place>)
    ensures r.Err? <==> budget <= 0 || chunks == [] || chunks[0].tokenCount > budget
    ensures r.Err? ==> r.error.InvalidConfig?
    ensures var picked := Selected(chunks, Included(chunks, budget, |chunks|));
      r.Ok? ==>
        && MapsList(r.value, picked) && |places| == |picked|
        && r.value.promptText == PromptText(question, picked)
        && forall i :: 0 <= i < |places| ==>
             && places[i].start <= places[i].stop <= |r.value.promptText|
             && r.value.promptText[places[i].start..places[i].stop] == "[" + Show(i + 1) + "] " + picked[i].text + "\n\n"
    ensures r.Ok? ==>
      && r.value.promptTokens == Running(chunks, budget, |chunks|)
      && r.value.droppedCount + |r.value.idMap| == |chunks|
    ensures forall i, j :: 0 <= i && j == i + 1 < |places| ==> places[i].stop == places[j].start
    ensures r.Ok? && places != [] ==>
      && r.value.promptText[..places[0].start] == SYSTEM_PROMPT + "\n\n## Context\n"
      && r.value.promptText[places[|places| - 1].stop..] == "## Question\n" + question + "\n\n## Answer\n"
  {
    r, places := BuildChecked(SYSTEM_PROMPT + "\n\n## Context\n", question, chunks, budget);
  }
}

/** What the greedy budget achieves, and exactly when 32-bit arithmetic spoils it. */
module Budget {
  import opened Prelude
  import opened Prompt

  function SumTokens(chunks: seq<PromptChunk>, included: seq<nat>): int
    requires forall i :: 0 <= i < |included| ==> included[i] < |chunks|
  {
    if included == [] then 0
    else
      var n := |included| - 1;
      SumTokens(chunks, included[..n]) + chunks[included[n]].tokenCount
  }

  ghost predicate NonNegative(chunks: seq<PromptChunk>) {
    forall i :: 0 <= i < |chunks| ==> chunks[i].tokenCount >= 0
  }

  /** The same greedy sum in unbounded arithmetic. */
  function ExactSum(chunks: seq<PromptChunk>, budget: int, n: nat): (sum: int)
    requires n <= |chunks|
  {
    if n == 0 then 0
    else
      var sum := ExactSum(chunks, budget, n - 1);
      if sum + chunks[n - 1].tokenCount <= budget then sum + chunks[n - 1].tokenCount else sum
  }

  /** The comparison for chunk `k` overflows. */
  predicate Overflows(chunks: seq<PromptChunk>, budget: int, k: nat)
    requires k < |chunks|
  {
    ExactSum(chunks, budget, k) + chunks[k].tokenCount > I32_MAX
  }

  ghost predicate NoOverflow(chunks: seq<PromptChunk>, budget: int, n: nat)
    requires n <= |chunks|
  {
    forall k :: 0 <= k < n ==> !Overflows(chunks, budget, k)
  }

  /** The exact number of tokens the loop has taken. */
  function Taken(chunks: seq<PromptChunk>, budget: I32, n: nat): int
    requires n <= |chunks|
  {
    if n == 0 then 0
    else
      Taken(chunks, budget, n - 1) + (if Takes(chunks, budget, n - 1) then chunks[n - 1].tokenCount else 0)
  }

  lemma {:induction false} TakenIsSum(chunks: seq<PromptChunk>, budget: I32, n: nat)
    requires n <= |chunks|
    ensures Taken(chunks, budget, n) == SumTokens(chunks, Included(chunks, budget, n))
    decreases n
  {
    if n > 0 {
      TakenIsSum(chunks, budget, n - 1);
      var before := Included(chunks, budget, n - 1);
      if Takes(chunks, budget, n - 1) {
        assert Included(chunks, budget, n)[..|before|] == before;
      } else {
        assert Included(chunks, budget, n) == before;
      }
    }
  }

  /** Without overflow the loop's count is the exact sum of the tokens it took. */
  lemma {:induction false} ExactWithoutOverflow(chunks: seq<PromptChunk>, budget: I32, n: nat)
    requires n <= |chunks| && NonNegative(chunks) && budget >= 0 && NoOverflow(chunks, budget, n)
    ensures 0 <= Running(chunks, budget, n) == ExactSum(chunks, budget, n) == Taken(chunks, budget, n) <= budget
    decreases n
  {
    if n > 0 {
      assert !Overflows(chunks, budget, n - 1);
      ExactWithoutOverflow(chunks, budget, n - 1);
    }
  }

  /** From the first overflow on, the tokens taken exceed both the loop's count and the budget. */
  lemma {:induction false} OverflowStays(chunks: seq<PromptChunk>, budget: I32, n: nat)
    requires n <= |chunks| && NonNegative(chunks) && budget >= 0 && !NoOverflow(chunks, budget, n)
    ensures Taken(chunks, budget, n) > Max(Running(chunks, budget, n), I32_MAX)
    decreases n
  {
    if NoOverflow(chunks, budget, n - 1) {
      ExactWithoutOverflow(chunks, budget, n - 1);
    } else {
      OverflowStays(chunks, budget, n - 1);
    }
  }

  /**
   * For non-negative token counts, the reported count is the sum of the
   * included chunks, and that sum is within the budget, exactly if no addition
   * of the greedy run overflows 32 bits.
   */
  lemma BudgetKeptExactly(chunks: seq<PromptChunk>, budget: I32)
    requires NonNegative(chunks) && budget > 0
    ensures var sum := SumTokens(chunks, Included(chunks, budget, |chunks|));
      && (sum == Running(chunks, budget, |chunks|) <==> NoOverflow(chunks, budget, |chunks|))
      && (sum <= budget <==> NoOverflow(chunks, budget, |chunks|))
  {
    TakenIsSum(chunks, budget, |chunks|);
    if NoOverflow(chunks, budget, |chunks|) {
      ExactWithoutOverflow(chunks, budget, |chunks|);
    } else {
      OverflowStays(chunks, budget, |chunks|);
    }
  }

  /** Counts that fit 32 bits together with the budget never overflow. */
  lemma SmallCountsDoNotOverflow(chunks: seq<PromptChunk>, budget: I32)
    requires NonNegative(chunks) && budget >= 0
    requires forall i :: 0 <= i < |chunks| ==> chunks[i].tokenCount <= I32_MAX - budget
    ensures NoOverflow(chunks, budget, |chunks|)
  {
    forall k | 0 <= k < |chunks| ensures ExactSum(chunks, budget, k) <= budget {
      ExactWithinBudget(chunks, budget, k);
    }
  }

  lemma {:induction false} ExactWithinBudget(chunks: seq<PromptChunk>, budget: int, n: nat)
    requires n <= |chunks| && budget >= 0
    ensures ExactSum(chunks, budget, n) <= budget
  {
    if n > 0 {
      ExactWithinBudget(chunks, budget, n - 1);
    }
  }

  /** The first chunk is always included, and first. */
  lemma {:induction false} FirstIncluded(chunks: seq<PromptChunk>, budget: I32, n: nat)
    requires 0 < n <= |chunks| && chunks[0].tokenCount <= budget
    ensures var p := Included(chunks, budget, n); p != [] && p[0] == 0
  {
    if n > 1 {
      FirstIncluded(chunks, budget, n - 1);
    } else {
      assert Running(chunks, budget, 0) == 0 && Takes(chunks, budget, 0);
    }
  }

  lemma {:induction false} RunningGrows(chunks: seq<PromptChunk>, budget: I32, k: nat, n: nat)
    requires k <= n <= |chunks| && NonNegative(chunks) && budget >= 0 && NoOverflow(chunks, budget, n)
    ensures Running(chunks, budget, k) <= Running(chunks, budget, n)
    decreases n
  {
    if k < n {
      assert !Overflows(chunks, budget, n - 1);
      RunningGrows(chunks, budget, k, n - 1);
      ExactWithoutOverflow(chunks, budget, n - 1);
    }
  }

  ghost predicate Increasing(s: seq<nat>) {
    forall i, j :: 0 <= i < j < |s| ==> s[i] < s[j]
  }

  lemma IncreasingAppended(s: seq<nat>, x: nat)
    requires Increasing(s) && forall i :: 0 <= i < |s| ==> s[i] < x
    ensures Increasing(s + [x])
  {
  }

  /** The included chunks are a subsequence of the input. */
  lemma {:induction false} IncludedIncrease(chunks: seq<PromptChunk>, budget: I32, n: nat)
    requires n <= |chunks|
    ensures Increasing(Included(chunks, budget, n))
    decreases n
  {
    if n > 0 {
      IncludedIncrease(chunks, budget, n - 1);
      if Takes(chunks, budget, n - 1) {
        IncreasingAppended(Included(chunks, budget, n - 1), n - 1);
      } else {
        assert Included(chunks, budget, n) == Included(chunks, budget, n - 1);
      }
    }
  }

  /** The loop includes exactly the chunks that fit when their turn comes. */
  lemma {:induction false} IncludedExactly(chunks: seq<PromptChunk>, budget: I32, n: nat, k: nat)
    requires k < n <= |chunks|
    ensures k in Included(chunks, budget, n) <==> Takes(chunks, budget, k)
    decreases n
  {
    var before := Included(chunks, budget, n - 1);
    if k < n - 1 {
      IncludedExactly(chunks, budget, n - 1, k);
    } else {
      assert n - 1 !in before;
    }
  }

  /** A chunk that was dropped does not fit even what is left of the budget in the end. */
  lemma DroppedDoNotFit(chunks: seq<PromptChunk>, budget: I32, k: nat)
    requires NonNegative(chunks) && budget > 0 && NoOverflow(chunks, budget, |chunks|) && k < |chunks|
    requires k !in Included(chunks, budget, |chunks|)
    ensures chunks[k].tokenCount > budget - Running(chunks, budget, |chunks|)
  {
    RunningGrows(chunks, budget, k, |chunks|);
    IncludedExactly(chunks, budget, |chunks|, k);
    ExactWithoutOverflow(chunks, budget, k);
  }

  /** A chunk of 2^31 - 1 tokens after a chunk of one token overflows, and is taken over a budget of one. */
  lemma OverflowTakesHugeChunk(a: PromptChunk, b: PromptChunk)
    requires a.tokenCount == 1 && b.tokenCount == I32_MAX
    ensures !NoOverflow([a, b], 1, 2)
    ensures Running([a, b], 1, 2) == I32_MIN && SumTokens([a, b], Included([a, b], 1, 2)) == 0x8000_0000
  {
    var chunks := [a, b];
    assert Running(chunks, 1, 0) == 0 && Takes(chunks, 1, 0);
    assert Taken(chunks, 1, 1) == Taken(chunks, 1, 0) + chunks[0].tokenCount;
    assert Running(chunks, 1, 1) == 1 && ExactSum(chunks, 1, 1) == 1;
    assert Overflows(chunks, 1, 1);
    TakenIsSum(chunks, 1, 2);
  }
}
