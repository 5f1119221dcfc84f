/** How entities are fenced into GitHub issues, and how a brief's title is cut to fit one. */
module IssueBody {
  import opened Common
  import opened Text

  const PREFIX := "## AgamemnonEntity: "
  const OPEN := "```json\n"
  const CLOSE := "\n```"

  function Head(entityType: string): string {
    PREFIX + entityType + "\n\n"
  }

  function MakeIssueBody(entityType: string, text: string): string {
    Head(entityType) + OPEN + (text + CLOSE + "\n")
  }

  lemma BodyFormat(entityType: string, text: string)
    ensures MakeIssueBody(entityType, text)
         == "## AgamemnonEntity: " + entityType + "\n\n```json\n" + text + "\n```\n"
  {
    assert "\n\n" + "```json\n" == "\n\n```json\n" && "\n```" + "\n" == "\n```\n";
    var a, b := "## AgamemnonEntity: " + entityType, "\n```\n";
    assert a + "\n\n" + "```json\n" == a + "\n\n```json\n";
    assert text + "\n```" + "\n" == text + b;
    assert a + "\n\n```json\n" + (text + b) == a + "\n\n```json\n" + text + b;
  }

  /** The text between the first opening fence and the first closing fence after it. */
  function FencedText(body: string): Option<string> {
    var open := Find(body, OPEN, 0);
    if open.None? then None
    else
      var start := open.value + |OPEN|;
      var close := Find(body, CLOSE, start);
      if close.None? then None else Some(body[start..close.value])
  }

  // ------------------------------------------------------- searching in parts

  lemma OccursAfter(s: string, pat: string, from: nat, k: nat)
    requires from <= |s|
    ensures Occurs(s, pat, from + k) <==> Occurs(s[from..], pat, k)
  {
    if from + k + |pat| <= |s| {
      assert s[from..][k..k + |pat|] == s[from + k..from + k + |pat|];
    }
  }

  /** Searching from a position is searching what follows it. */
  lemma FindAfter(s: string, pat: string, from: nat)
    requires from <= |s|
    ensures
      var r := Find(s[from..], pat, 0);
      Find(s, pat, from) == if r.None? then None else Some(from + r.value)
  {
    hide Find, Occurs;
    var r, f := Find(s[from..], pat, 0), Find(s, pat, from);
    if f.Some? {
      OccursAfter(s, pat, from, f.value - from);
    }
    if r.Some? {
      OccursAfter(s, pat, from, r.value);
      assert f.Some? && f.value <= from + r.value;
    }
  }

  lemma OccursWithin(s: string, more: string, pat: string, k: nat)
    ensures Occurs(s, pat, k) ==> Occurs(s + more, pat, k)
    ensures k + |pat| <= |s| && Occurs(s + more, pat, k) ==> Occurs(s, pat, k)
  {
    if k + |pat| <= |s| {
      assert (s + more)[k..k + |pat|] == s[k..k + |pat|];
    }
  }

  /** What is found in a text is found at the same place in every longer text. */
  lemma FindWithin(s: string, more: string, pat: string, from: nat)
    requires Find(s, pat, from).Some?
    ensures Find(s + more, pat, from) == Find(s, pat, from)
  {
    hide Find, Occurs;
    var k := Find(s, pat, from).value;
    FoundInside(s, pat, from);
    OccursWithin(s, more, pat, k);
    var r := Find(s + more, pat, from);
    OccursWithin(s, more, pat, r.value);
  }

  lemma FoundInside(s: string, pat: string, from: nat)
    requires Find(s, pat, from).Some?
    ensures Find(s, pat, from).value + |pat| <= |s|
  {
    assert Occurs(s, pat, Find(s, pat, from).value);
  }

  lemma FenceCharacters()
    ensures |PREFIX| == 20 && |OPEN| == 8 && |CLOSE| == 4
    ensures forall i :: 0 <= i < |PREFIX| ==> PREFIX[i] != '`'
    ensures forall i :: 0 <= i < 7 ==> OPEN[i] != '\n'
    ensures OPEN[0] == OPEN[1] == OPEN[2] == '`' && OPEN[7] == '\n'
    ensures CLOSE[0] == '\n' && CLOSE[1] == CLOSE[2] == CLOSE[3] == '`'
  {
  }

  lemma OccursBetween(before: string, pat: string, after: string)
    ensures Occurs(before + pat + after, pat, |before|)
  {
    assert (before + pat + after)[|before|..|before| + |pat|] == pat;
  }

  lemma OccurrenceAt(s: string, pat: string, k: nat, i: nat)
    requires Occurs(s, pat, k) && i < |pat|
    ensures k + i < |s| && s[k + i] == pat[i]
  {
    assert s[k..k + |pat|][i] == s[k + i];
  }

  // -------------------------------------------------------- the opening fence

  /** An opening fence before the real one lies in the entity type and the line break after it. */
  lemma EarlyFence(entityType: string, rest: string, k: nat)
    requires k < |Head(entityType)| && Occurs(Head(entityType) + OPEN + rest, OPEN, k)
    ensures Contains(entityType + "\n", OPEN)
  {
    hide Occurs;
    var body, m := Head(entityType) + OPEN + rest, |entityType|;
    FenceCharacters();
    OccurrenceAt(body, OPEN, k, 0);
    assert forall i :: 0 <= i < 20 ==> body[i] == PREFIX[i];
    assert body[20 + m] == '\n' && body[21 + m] == '\n';
    assert 20 <= k < 20 + m;
    if k + 8 > 21 + m {
      OccurrenceAt(body, OPEN, k, 20 + m - k);
    }
    OccursAfter(body, OPEN, 20, k - 20);
    assert body[20..] == (entityType + "\n") + ("\n" + OPEN + rest);
    OccursWithin(entityType + "\n", "\n" + OPEN + rest, OPEN, k - 20);
  }

  lemma OpeningFence(entityType: string, rest: string)
    requires !Contains(entityType + "\n", OPEN)
    ensures Find(Head(entityType) + OPEN + rest, OPEN, 0) == Some(|Head(entityType)|)
  {
    var body, n := Head(entityType) + OPEN + rest, |Head(entityType)|;
    hide Find, Occurs, Contains, OPEN, Head;
    OccursBetween(Head(entityType), OPEN, rest);
    var k := Find(body, OPEN, 0).value;
    if k < n {
      EarlyFence(entityType, rest, k);
    }
  }

  // -------------------------------------------------------- the closing fence

  /** A closing fence that starts in the text lies in the text. */
  lemma EarlyClose(text: string, more: string, k: nat)
    requires k < |text| && Occurs(text + CLOSE + more, CLOSE, k)
    ensures Occurs(text, CLOSE, k)
  {
    hide Occurs, CLOSE;
    var s := text + CLOSE + more;
    FenceCharacters();
    assert s[|text|] == CLOSE[0];
    if k + 4 > |text| {
      OccurrenceAt(s, CLOSE, k, |text| - k);
    }
    assert s == text + (CLOSE + more);
    OccursWithin(text, CLOSE + more, CLOSE, k);
  }

  /** The first closing fence ends the text, unless the text holds one itself. */
  lemma ClosingFence(text: string, more: string)
    ensures
      var own := Find(text, CLOSE, 0);
      Find(text + CLOSE + more, CLOSE, 0) == if own.Some? then own else Some(|text|)
  {
    hide Find, Occurs, CLOSE;
    var s := text + CLOSE + more;
    if Find(text, CLOSE, 0).Some? {
      assert s == text + (CLOSE + more);
      FindWithin(text, CLOSE + more, CLOSE, 0);
    } else {
      OccursBetween(text, CLOSE, more);
      var k := Find(s, CLOSE, 0).value;
      if k < |text| {
        EarlyClose(text, more, k);
      }
    }
  }

  // ------------------------------------------------------------- the theorems

  /** Reading an issue back gives the text up to its first closing fence: all of it if it has none. */
  lemma ReadBack(entityType: string, text: string)
    requires !Contains(entityType + "\n", OPEN)
    ensures
      var own := Find(text, CLOSE, 0);
      FencedText(MakeIssueBody(entityType, text)) == Some(if own.Some? then text[..own.value] else text)
  {
    hide Contains, Find, Head;
    var rest := text + CLOSE + "\n";
    var body, start := MakeIssueBody(entityType, text), |Head(entityType)| + |OPEN|;
    OpeningFence(entityType, rest);
    ClosingFence(text, "\n");
    assert body[start..] == rest;
    FindAfter(body, CLOSE, start);
    var end := Find(body, CLOSE, start).value;
    assert body[start..end] == rest[..end - start];
    assert end - start <= |text|;
    assert rest[..end - start] == text[..end - start];
    assert text[..|text|] == text;
  }

  /** So an entity survives the issue it is stored in exactly when its text holds no closing fence. */
  lemma RecoveredIff(entityType: string, text: string)
    requires !Contains(entityType + "\n", OPEN)
    ensures FencedText(MakeIssueBody(entityType, text)) == Some(text) <==> !Contains(text, "\n```")
  {
    ReadBack(entityType, text);
    var own := Find(text, CLOSE, 0);
    if own.Some? {
      assert Occurs(text, CLOSE, own.value);
      assert |CLOSE| == 4;
      assert |text[..own.value]| < |text|;
    }
  }

  /** An opening fence in the entity type hides the entity: what is read back does not depend on it. */
  lemma FenceInTypeHidesText(entityType: string, text: string, other: string)
    requires Contains(entityType + "\n", OPEN)
    ensures FencedText(MakeIssueBody(entityType, text)) == FencedText(MakeIssueBody(entityType, other))
  {
    HiddenBehind(entityType, text + CLOSE + "\n");
    HiddenBehind(entityType, other + CLOSE + "\n");
  }

  lemma HiddenBehind(entityType: string, rest: string)
    requires Contains(entityType + "\n", OPEN)
    ensures FencedText(Head(entityType) + OPEN + rest) == FencedText(Head(entityType) + OPEN)
  {
    hide Find, Occurs, OPEN, CLOSE;
    var s := Head(entityType) + OPEN;
    FenceCharacters();
    BothFences(entityType);
    FindWithin(s, rest, OPEN, 0);
    var start := Find(s, OPEN, 0).value + 8;
    FindWithin(s, rest, CLOSE, start);
    FoundInside(s, CLOSE, start);
    var end := Find(s, CLOSE, start).value;
    assert (s + rest)[start..end] == s[start..end];
  }

  /** The fence in the type opens a block that the real opening fence closes. */
  lemma BothFences(entityType: string)
    requires Contains(entityType + "\n", OPEN)
    ensures
      var s := Head(entityType) + OPEN;
      && Find(s, OPEN, 0).Some?
      && Find(s, CLOSE, Find(s, OPEN, 0).value + 8).Some?
  {
    hide Find, Occurs;
    var s, m := Head(entityType) + OPEN, |entityType|;
    FenceCharacters();
    var k: nat :| Occurs(entityType + "\n", OPEN, k);
    OccurrenceAt(entityType + "\n", OPEN, k, 7);
    assert s[20..] == (entityType + "\n") + ("\n" + OPEN);
    OccursWithin(entityType + "\n", "\n" + OPEN, OPEN, k);
    OccursAfter(s, OPEN, 20, k);
    var open := Find(s, OPEN, 0).value;
    assert open <= 20 + k && k + 8 <= m + 1;
    assert s == (PREFIX + entityType + "\n") + CLOSE + "json\n";
    OccursBetween(PREFIX + entityType + "\n", CLOSE, "json\n");
  }

  // ------------------------------------------------------------ brief titles

  type Byte = x: int | 0 <= x < 256

  const TITLE_LIMIT: nat := 80

  /** The length the truncation loop reads off a leading byte. */
  function Advance(c: Byte): (n: nat)
    ensures 1 <= n <= 4
  {
    if c < 0x80 then 1 else if c < 0xC0 then 1 else if c < 0xE0 then 2 else if c < 0xF0 then 3 else 4
  }

  /** Up to `budget` sequences from the front of a title. */
  function Truncated(title: seq<Byte>, budget: nat): seq<Byte>
    decreases budget
  {
    if budget == 0 || title == [] || Advance(title[0]) > |title| then []
    else title[..Advance(title[0])] + Truncated(title[Advance(title[0])..], budget - 1)
  }

  lemma TruncatedStep(title: seq<Byte>, i: nat, budget: nat)
    requires i < |title| && budget > 0 && i + Advance(title[i]) <= |title|
    ensures
      var next := i + Advance(title[i]);
      Truncated(title[i..], budget) == title[i..next] + Truncated(title[next..], budget - 1)
  {
    var adv := Advance(title[i]);
    assert title[i..][..adv] == title[i..i + adv];
    assert title[i..][adv..] == title[i + adv..];
  }

  method TruncateTitle(title: seq<Byte>) returns (truncated: seq<Byte>)
    ensures truncated == Truncated(title, 80)
  {
    hide Advance, Truncated;
    truncated := [];
    var codePoints := 0;
    var i := 0;
    assert title[0..] == title;
    while i < |title| && codePoints < 80
      invariant 0 <= i <= |title| && 0 <= codePoints <= 80
      invariant Truncated(title, TITLE_LIMIT) == truncated + Truncated(title[i..], TITLE_LIMIT - codePoints)
    {
      var adv := Advance(title[i]);
      if i + adv > |title| {
        break;
      }
      TruncatedStep(title, i, TITLE_LIMIT - codePoints);
      ghost var rest := Truncated(title[i + adv..], TITLE_LIMIT - codePoints - 1);
      assert truncated + (title[i..i + adv] + rest) == (truncated + title[i..i + adv]) + rest;
      truncated := truncated + title[i..i + adv];
      i := i + adv;
      codePoints := codePoints + 1;
    }
    TruncatedStop(title, i, TITLE_LIMIT - codePoints);
  }

  lemma TruncatedStop(title: seq<Byte>, i: nat, budget: nat)
    requires i <= |title|
    requires budget == 0 || i == |title| || i + Advance(title[i]) > |title|
    ensures Truncated(title[i..], budget) == []
  {
  }

  /** Whatever the bytes, the result is the front of the title. */
  lemma {:induction false} TruncatedIsPrefix(title: seq<Byte>, budget: nat)
    ensures Truncated(title, budget) <= title
    decreases budget
  {
    if budget != 0 && title != [] && Advance(title[0]) <= |title| {
      TruncatedIsPrefix(title[Advance(title[0])..], budget - 1);
    }
  }

  /** A Unicode scalar value: not a surrogate. */
  type CodePoint = c: int | 0 <= c <= 0x10FFFF && !(0xD800 <= c <= 0xDFFF)

  /** UTF-8, section 3 of RFC 3629. */
  function Encoded(c: CodePoint): (bytes: seq<Byte>)
    ensures bytes != [] && |bytes| == Advance(bytes[0])
  {
    if c < 0x80 then [c]
    else if c < 0x800 then [0xC0 + c / 64, 0x80 + c % 64]
    else if c < 0x10000 then [0xE0 + c / 4096, 0x80 + c / 64 % 64, 0x80 + c % 64]
    else [0xF0 + c / 262144, 0x80 + c / 4096 % 64, 0x80 + c / 64 % 64, 0x80 + c % 64]
  }

  function EncodedText(text: seq<CodePoint>): seq<Byte> {
    if text == [] then [] else Encoded(text[0]) + EncodedText(text[1..])
  }

  /** A well-formed title is cut after its first code points, never inside one. */
  lemma {:induction false} TruncationKeepsCodePoints(text: seq<CodePoint>, budget: nat)
    ensures Truncated(EncodedText(text), budget) == EncodedText(text[..Min(budget, |text|)])
    decreases budget
  {
    if budget == 0 || text == [] {
      assert text[..Min(budget, |text|)] == [];
    } else {
      var first, rest := Encoded(text[0]), text[1..];
      var title := EncodedText(text);
      assert title[..|first|] == first && title[|first|..] == EncodedText(rest);
      TruncationKeepsCodePoints(rest, budget - 1);
      var n := Min(budget, |text|);
      assert text[..n][1..] == rest[..n - 1];
    }
  }
}
