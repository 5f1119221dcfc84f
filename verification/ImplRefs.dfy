/** Issue references carried by L3 implementation strings: "#12 (depends on: #10, #11)". */
module ImplRefs {
  import opened Common
  import opened Text

  datatype ImplRef = ImplRef(issue: nat, dependsOn: seq<nat>, hasExplicitDeps: bool)

  /** std::stoi throws std::out_of_range. */
  datatype ParseError = OutOfRange

  const INT_MAX := 0x7fff_ffff

  function Marker(): (m: string)
    ensures |m| == 12 && m[0] == '(' && forall i :: 0 <= i < |m| ==> m[i] != ')'
  {
    "(depends on:"
  }

  function Stoi(digits: string): (r: Result<nat, ParseError>)
    requires forall i :: 0 <= i < |digits| ==> IsDigit(digits[i])
    ensures r == (if Numeral(digits) <= INT_MAX then Ok(Numeral(digits)) else Err(OutOfRange))
  {
    if Numeral(digits) > INT_MAX then Err(OutOfRange) else Ok(Numeral(digits))
  }

  /** How many blanks a string starts with. */
  function BlankPrefix(s: string): (n: nat)
    ensures n <= |s| && (forall i :: 0 <= i < n ==> s[i] == ' ' || s[i] == '\t')
    ensures n < |s| ==> s[n] != ' ' && s[n] != '\t'
  {
    if s != [] && (s[0] == ' ' || s[0] == '\t') then 1 + BlankPrefix(s[1..]) else 0
  }

  /** Every "#digits" in a text, from left to right. */
  function References(text: string): Result<seq<nat>, ParseError>
    decreases |text|
  {
    if text == [] then Ok([])
    else if text[0] != '#' then References(text[1..])
    else
      var n := DigitPrefix(text[1..]);
      if n == 0 then References(text[1..])
      else
        match Stoi(text[1..][..n])
        case Err(e) => Err(e)
        case Ok(v) =>
          match References(text[1 + n..])
          case Err(e) => Err(e)
          case Ok(vs) => Ok([v] + vs)
  }

  /** The annotated dependencies after position j: None when there is no complete annotation. */
  function Annotation(s: string, j: nat): Option<string> {
    match Find(s, Marker(), j)
    case None => None
    case Some(depStart) =>
      match Find(s, ")", depStart)
      case None => None
      case Some(depEnd) =>
        MarkerBeforeParen(s, depStart, depEnd);
        Some(s[depStart + |Marker()|..depEnd])
  }

  function WithAnnotation(issue: nat, annotation: Option<string>): Result<ImplRef, ParseError> {
    if annotation.None? then Ok(ImplRef(issue, [], false))
    else
      match References(annotation.value)
      case Err(e) => Err(e)
      case Ok(deps) => Ok(ImplRef(issue, deps, true))
  }

  /** What an implementation string refers to. */
  function Parsed(s: string): Result<ImplRef, ParseError> {
    var i := BlankPrefix(s);
    if i == |s| || s[i] != '#' then Ok(ImplRef(0, [], false))
    else
      var n := DigitPrefix(s[i + 1..]);
      if n == 0 then Ok(ImplRef(0, [], false))
      else
        match Stoi(s[i + 1..][..n])
        case Err(e) => Err(e)
        case Ok(issue) => WithAnnotation(issue, Annotation(s, i + 1 + n))
  }

  /** The marker holds no closing parenthesis. */
  lemma MarkerBeforeParen(s: string, depStart: nat, depEnd: nat)
    requires Occurs(s, Marker(), depStart) && depStart <= depEnd && Occurs(s, ")", depEnd)
    ensures depStart + |Marker()| <= depEnd
  {
    hide Marker;
    assert s[depEnd..depEnd + 1][0] == s[depEnd] == ')';
    assert forall i :: depStart <= i < depStart + |Marker()| ==> s[i] == Marker()[i - depStart];
  }

  // -------------------------------------------------------------- the parser

  /** The index-advancing parser of the source. */
  method ParseImplRef(s: string) returns (r: Result<ImplRef, ParseError>)
    ensures r == Parsed(s)
  {
    hide DigitPrefix, References, Stoi, Find, Marker, Annotation;
    var i := SkipBlanks(s);
    if i == |s| || s[i] != '#' {
      return Ok(ImplRef(0, [], false));
    }
    var j := SkipDigits(s, i + 1, |s|);
    assert s[i + 1..|s|] == s[i + 1..];
    if j == i + 1 {
      return Ok(ImplRef(0, [], false));
    }
    assert s[i + 1..j] == s[i + 1..][..j - i - 1];
    var issue := Stoi(s[i + 1..j]);
    if issue.Err? {
      return Err(issue.error);
    }
    r := ParseAnnotation(s, j, issue.value);
  }

  method ParseAnnotation(s: string, j: nat, issue: nat) returns (r: Result<ImplRef, ParseError>)
    ensures r == WithAnnotation(issue, Annotation(s, j))
  {
    hide References, Find, Marker;
    var depStart := Find(s, Marker(), j);
    if depStart == None {
      return Ok(ImplRef(issue, [], false));
    }
    var depEnd := Find(s, ")", depStart.value);
    if depEnd == None {
      return Ok(ImplRef(issue, [], false));
    }
    MarkerBeforeParen(s, depStart.value, depEnd.value);
    var deps := CollectReferences(s, depStart.value + |Marker()|, depEnd.value);
    r := if deps.Err? then Err(deps.error) else Ok(ImplRef(issue, deps.value, true));
  }

  method SkipBlanks(s: string) returns (i: nat)
    ensures i == BlankPrefix(s)
  {
    i := 0;
    while i < |s| && (s[i] == ' ' || s[i] == '\t')
      invariant 0 <= i <= |s|
      invariant BlankPrefix(s) == i + BlankPrefix(s[i..])
    {
      i := i + 1;
    }
  }

  method SkipDigits(s: string, from: nat, stop: nat) returns (m: nat)
    requires from <= stop <= |s|
    ensures from <= m <= stop && m == from + DigitPrefix(s[from..stop])
  {
    m := from;
    while m < stop && IsDigit(s[m])
      invariant from <= m <= stop
      invariant DigitPrefix(s[from..stop]) == m - from + DigitPrefix(s[m..stop])
    {
      assert s[m..stop][1..] == s[m + 1..stop];
      m := m + 1;
    }
  }

  function Prepended(done: seq<nat>, rest: Result<seq<nat>, ParseError>): Result<seq<nat>, ParseError> {
    if rest.Err? then rest else Ok(done + rest.value)
  }

  lemma ReferencesSkip(text: string)
    requires text != [] && (text[0] != '#' || DigitPrefix(text[1..]) == 0)
    ensures References(text) == References(text[1..])
  {
  }

  lemma ReferencesTake(text: string, n: nat)
    requires text != [] && text[0] == '#' && n == DigitPrefix(text[1..]) > 0
    ensures References(text) ==
      match Stoi(text[1..][..n])
      case Err(e) => Err(e)
      case Ok(v) => Prepended([v], References(text[1 + n..]))
  {
  }

  lemma NoReferences()
    ensures References("") == Ok([])
  {
  }

  lemma PrependedNothing(rest: Result<seq<nat>, ParseError>)
    ensures Prepended([], rest) == rest
  {
    if rest.Ok? {
      assert [] + rest.value == rest.value;
    }
  }

  lemma PrependedTwice(done: seq<nat>, v: nat, rest: Result<seq<nat>, ParseError>)
    ensures Prepended(done, Prepended([v], rest)) == Prepended(done + [v], rest)
  {
    if rest.Ok? {
      assert done + ([v] + rest.value) == done + [v] + rest.value;
    }
  }

  method CollectReferences(s: string, from: nat, stop: nat) returns (r: Result<seq<nat>, ParseError>)
    requires from <= stop <= |s|
    ensures r == References(s[from..stop])
  {
    hide References, DigitPrefix, Stoi;
    var deps: seq<nat> := [];
    var k := from;
    PrependedNothing(References(s[from..stop]));
    while k < stop
      invariant from <= k <= stop
      invariant References(s[from..stop]) == Prepended(deps, References(s[k..stop]))
    {
      ghost var text := s[k..stop];
      assert text[1..] == s[k + 1..stop];
      if s[k] == '#' {
        var m := SkipDigits(s, k + 1, stop);
        if m > k + 1 {
          ghost var n := m - k - 1;
          assert text[1..][..n] == s[k + 1..m] && text[1 + n..] == s[m..stop];
          ReferencesTake(text, n);
          var v := Stoi(s[k + 1..m]);
          if v.Err? {
            return Err(v.error);
          }
          PrependedTwice(deps, v.value, References(s[m..stop]));
          deps := deps + [v.value];
        } else {
          ReferencesSkip(text);
        }
        k := m;
      } else {
        ReferencesSkip(text);
        k := k + 1;
      }
    }
    assert s[k..stop] == [];
    NoReferences();
    assert deps + [] == deps;
    r := Ok(deps);
  }

  // -------------------------------------------------------------- round trip

  /** "#A, #B, ..." */
  function Listed(deps: seq<nat>): string {
    if deps == [] then ""
    else if |deps| == 1 then "#" + Decimal(deps[0])
    else "#" + Decimal(deps[0]) + ", " + Listed(deps[1..])
  }

  /** "#N", or "#N (depends on: #A, #B)" when dependencies are given. */
  function Rendered(issue: nat, deps: Option<seq<nat>>): string {
    "#" + Decimal(issue) + if deps.None? then "" else " (depends on: " + Listed(deps.value) + ")"
  }

  lemma RenderedIs(issue: nat, deps: Option<seq<nat>>)
    ensures Rendered(issue, deps)
         == "#" + Decimal(issue) + if deps.None? then "" else " " + Marker() + " " + Listed(deps.value) + ")"
  {
    assert " " + Marker() + " " == " (depends on: ";
  }

  lemma {:induction false} DigitPrefixOf(digits: string, rest: string)
    requires forall i :: 0 <= i < |digits| ==> IsDigit(digits[i])
    requires rest != [] ==> !IsDigit(rest[0])
    ensures DigitPrefix(digits + rest) == |digits|
  {
    if digits == [] {
      assert digits + rest == rest;
    } else {
      assert (digits + rest)[1..] == digits[1..] + rest;
      DigitPrefixOf(digits[1..], rest);
    }
  }

  /** A rendered number at the front of a text is the first reference found in it. */
  lemma ReferenceFirst(n: nat, rest: string)
    requires rest != [] ==> !IsDigit(rest[0])
    ensures References("#" + Decimal(n) + rest)
         == if n <= INT_MAX then Prepended([n], References(rest)) else Err(OutOfRange)
  {
    var digits := Decimal(n);
    var text := "#" + digits + rest;
    assert text[1..] == digits + rest;
    DigitPrefixOf(digits, rest);
    NumeralOfDecimal(n);
    assert text[1..][..|digits|] == digits;
    assert text[1 + |digits|..] == rest;
  }

  ghost predicate AllFit(deps: seq<nat>) {
    forall i :: 0 <= i < |deps| ==> deps[i] <= 0x7fff_ffff
  }

  lemma {:induction false} ReferencesOfListed(deps: seq<nat>)
    ensures References(Listed(deps)) == if AllFit(deps) then Ok(deps) else Err(OutOfRange)
  {
    if deps == [] {
      assert References("") == Ok([]);
    } else if |deps| == 1 {
      assert "#" + Decimal(deps[0]) == "#" + Decimal(deps[0]) + "";
      ReferenceFirst(deps[0], "");
      assert References("") == Ok([]);
      assert [deps[0]] + [] == deps;
    } else {
      ReferencesOfListed(deps[1..]);
      ListedStep(deps);
      assert AllFit(deps) <==> deps[0] <= INT_MAX && AllFit(deps[1..]);
      assert [deps[0]] + deps[1..] == deps;
    }
  }

  lemma ListedStep(deps: seq<nat>)
    requires |deps| > 1
    ensures References(Listed(deps))
         == if deps[0] <= INT_MAX then Prepended([deps[0]], References(Listed(deps[1..]))) else Err(OutOfRange)
  {
    hide References, Decimal;
    var tail := Listed(deps[1..]);
    var rest := ", " + tail;
    ReferenceFirst(deps[0], rest);
    assert "#" + Decimal(deps[0]) + ", " + tail == "#" + Decimal(deps[0]) + rest;
    ReferencesSkip(rest);
    assert rest[1..] == " " + tail;
    ReferencesSkip(" " + tail);
    assert (" " + tail)[1..] == tail;
  }

  lemma {:induction false} ListedHasNoParen(deps: seq<nat>)
    ensures forall i :: 0 <= i < |Listed(deps)| ==> Listed(deps)[i] != ')'
  {
    if |deps| > 1 {
      ListedHasNoParen(deps[1..]);
    }
  }

  lemma FoundAt(s: string, pat: string, from: nat, k: nat)
    requires from <= k && Occurs(s, pat, k)
    requires forall i: nat :: from <= i < k ==> !Occurs(s, pat, i)
    ensures Find(s, pat, from) == Some(k)
  {
  }

  /** An annotation put behind some text is found where it was put. */
  lemma AnnotationFound(front: string, body: string)
    requires front != [] && front[|front| - 1] == ' '
    requires forall i :: 0 <= i < |body| ==> body[i] != ')'
    ensures Annotation(front + Marker() + body + ")", |front| - 1) == Some(body)
  {
    hide Find, Marker;
    var m := Marker();
    var s := front + m + body + ")";
    var j := |front| - 1;
    assert s[j] == ' ' && s[j + 1..j + 1 + |m|] == m;
    assert s[j..][0] == s[j];
    assert !Occurs(s, m, j) by {
      if j + |m| <= |s| {
        assert s[j..j + |m|][0] == s[j] != m[0];
      }
    }
    FoundAt(s, m, j, j + 1);
    assert s[j + 1..] == m + body + ")";
    ParenFound(s, j + 1, |s| - 1, m, body);
    assert s[j + 1 + |m|..|s| - 1] == body;
  }

  lemma ParenFound(s: string, from: nat, last: nat, m: string, body: string)
    requires last + 1 == |s| && from + |m| + |body| == last
    requires s[from..] == m + body + ")"
    requires (forall i :: 0 <= i < |m| ==> m[i] != ')') && (forall i :: 0 <= i < |body| ==> body[i] != ')')
    ensures Find(s, ")", from) == Some(last)
  {
    assert s[last] == s[from..][last - from] == ')';
    assert s[last..last + 1] == ")";
    forall i: nat | from <= i < last ensures !Occurs(s, ")", i) {
      assert s[i] == s[from..][i - from] == (m + body + ")")[i - from];
      assert (m + body + ")")[i - from] == if i - from < |m| then m[i - from] else body[i - from - |m|];
      assert s[i..i + 1][0] == s[i];
    }
    FoundAt(s, ")", from, last);
  }

  lemma NoAnnotation(digits: string)
    requires forall i :: 0 <= i < |digits| ==> IsDigit(digits[i])
    ensures Annotation("#" + digits, 1 + |digits|) == None
  {
    hide Marker;
    var s := "#" + digits;
    assert forall k: nat :: |s| <= k ==> !Occurs(s, Marker(), k);
  }

  /**
   Parsing a rendered reference gives back the number, the list and the explicit flag, for all
   numbers that fit in int; it fails exactly when one does not.
   */
  lemma ParseUndoesRender(issue: nat, deps: Option<seq<nat>>)
    ensures Parsed(Rendered(issue, deps)) ==
      if issue <= 0x7fff_ffff && (deps.Some? ==> AllFit(deps.value))
      then Ok(ImplRef(issue, if deps.Some? then deps.value else [], deps.Some?))
      else Err(OutOfRange)
  {
    RenderedIs(issue, deps);
    hide Marker, Annotation, References, Decimal, Listed, WithAnnotation, Rendered;
    if deps.None? {
      RenderedFront(issue, "");
      NoAnnotation(Decimal(issue));
      assert Rendered(issue, deps) == "#" + Decimal(issue) + "";
      assert "#" + Decimal(issue) == "#" + Decimal(issue) + "";
    } else {
      var body := " " + Listed(deps.value);
      var rest := " " + Marker() + body + ")";
      RenderedFront(issue, rest);
      ListedHasNoParen(deps.value);
      AnnotationFound("#" + Decimal(issue) + " ", body);
      assert Rendered(issue, deps) == "#" + Decimal(issue) + rest;
      assert "#" + Decimal(issue) + rest == "#" + Decimal(issue) + " " + Marker() + body + ")";
      ReferencesOfListed(deps.value);
      ReferencesSkip(body);
      assert body[1..] == Listed(deps.value);
    }
    AnnotationResult(issue, deps);
  }

  lemma AnnotationResult(issue: nat, deps: Option<seq<nat>>)
    ensures WithAnnotation(issue, None) == Ok(ImplRef(issue, [], false))
    ensures deps.Some? ==> forall body ::
      References(body) == (if AllFit(deps.value) then Ok(deps.value) else Err(OutOfRange)) ==>
      WithAnnotation(issue, Some(body)) ==
      (if AllFit(deps.value) then Ok(ImplRef(issue, deps.value, true)) else Err(OutOfRange))
  {
  }

  lemma RenderedFront(issue: nat, rest: string)
    requires rest != [] ==> !IsDigit(rest[0])
    ensures
      var s := "#" + Decimal(issue) + rest;
      Parsed(s) == if issue <= INT_MAX then WithAnnotation(issue, Annotation(s, 1 + |Decimal(issue)|)) else Err(OutOfRange)
  {
    hide Annotation, Decimal, WithAnnotation;
    var digits := Decimal(issue);
    var s := "#" + digits + rest;
    assert s[0 + 1..] == digits + rest;
    DigitPrefixOf(digits, rest);
    NumeralOfDecimal(issue);
    assert s[0 + 1..][..|digits|] == digits;
  }

  // ------------------------------------------------------------ other strings

  lemma FindShifted(c: char, s: string, pat: string, from: nat)
    ensures
      var r := Find(s, pat, from);
      Find([c] + s, pat, from + 1) == if r.None? then None else Some(r.value + 1)
  {
    hide Find, Occurs;
    var r, f := Find(s, pat, from), Find([c] + s, pat, from + 1);
    if f.Some? {
      OccursShifted(c, s, pat, f.value - 1);
    }
    if r.Some? {
      OccursShifted(c, s, pat, r.value);
    }
  }

  lemma OccursShifted(c: char, s: string, pat: string, k: nat)
    ensures Occurs([c] + s, pat, k + 1) <==> Occurs(s, pat, k)
  {
    if k + |pat| <= |s| {
      assert ([c] + s)[k + 1..k + 1 + |pat|] == s[k..k + |pat|];
    }
  }

  lemma AnnotationShifted(c: char, s: string, j: nat)
    ensures Annotation([c] + s, j + 1) == Annotation(s, j)
  {
    hide Find, Marker;
    FindShifted(c, s, Marker(), j);
    var depStart := Find(s, Marker(), j);
    if depStart.Some? {
      FindShifted(c, s, ")", depStart.value);
      var depEnd := Find(s, ")", depStart.value);
      if depEnd.Some? {
        MarkerBeforeParen(s, depStart.value, depEnd.value);
        var from := depStart.value + |Marker()|;
        assert ([c] + s)[from + 1..depEnd.value + 1] == s[from..depEnd.value];
      }
    }
  }

  /** Blanks in front change nothing. */
  lemma LeadingBlankIgnored(c: char, s: string)
    requires c == ' ' || c == '\t'
    ensures Parsed([c] + s) == Parsed(s)
  {
    hide Annotation, DigitPrefix, Stoi, WithAnnotation;
    var i := BlankPrefix(s);
    assert ([c] + s)[1..] == s;
    assert BlankPrefix([c] + s) == i + 1;
    if i < |s| && s[i] == '#' {
      assert ([c] + s)[i + 2..] == s[i + 1..];
      AnnotationShifted(c, s, i + 1 + DigitPrefix(s[i + 1..]));
    }
  }

  /** A string that does not start, after blanks, with a number sign and a digit refers to nothing. */
  lemma NoReference(s: string)
    requires forall i, k :: 0 <= i < k == i + 1 < |s| && s[i] == '#' && IsDigit(s[k]) ==>
      exists j :: 0 <= j < i && s[j] != ' ' && s[j] != '\t'
    ensures Parsed(s) == Ok(ImplRef(0, [], false))
  {
    hide Annotation, Stoi, WithAnnotation;
    var i := BlankPrefix(s);
    assert i < |s| ==> DigitPrefix(s[i + 1..]) > 0 ==> i + 1 < |s| && s[i + 1..][0] == s[i + 1];
  }

  lemma ParenInside(s: string, from: nat)
    ensures Find(s, ")", from).Some? ==> ')' in s
  {
    var r := Find(s, ")", from);
    assert r.Some? ==> s[r.value..r.value + 1][0] == s[r.value];
  }

  /** Without the marker, or without a closing parenthesis, no dependency is explicit. */
  lemma NoExplicitDependencies(s: string)
    requires !Contains(s, "(depends on:") || ')' !in s
    ensures Parsed(s).Ok? ==> Parsed(s).value.dependsOn == [] && !Parsed(s).value.hasExplicitDeps
  {
    hide Stoi, DigitPrefix, References, Find;
    forall j: nat ensures Annotation(s, j) == None {
      var depStart := Find(s, Marker(), j);
      if depStart.Some? {
        assert Occurs(s, "(depends on:", depStart.value);
        ParenInside(s, depStart.value);
      }
    }
    hide Annotation;
  }
}
