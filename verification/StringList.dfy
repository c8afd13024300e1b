/** Lists of strings as option values: text separated by commas that a backslash protects (m_option.c). */
module StringList {
  import opened Basics
  import C = Config
  import N = Numbers

  const LIST_SEPARATOR := ','

  /** A separator at `i` counts unless a backslash of the same element stands before it. */
  predicate Escaped(s: string, i: nat)
    requires i < |s|
  {
    s[i] == ',' && i > 0 && s[i - 1] == '\\'
  }

  predicate Separates(s: string, i: nat)
    requires i < |s|
  {
    s[i] == ',' && !Escaped(s, i)
  }

  /** The first separator at or behind `from` in a text that begins an element. */
  function NextSep(s: string, from: nat): (r: Maybe<nat>)
    requires from <= |s|
    ensures r.Just? ==> from <= r.value < |s| && Separates(s, r.value)
    ensures forall i {:trigger Separates(s, i)} :: from <= i < |s| && (r.Just? ==> i < r.value) ==> !Separates(s, i)
    decreases |s| - from
  {
    if from == |s| then Nothing
    else if Separates(s, from) then Just(from)
    else NextSep(s, from + 1)
  }

  /** Every backslash that protects a comma is dropped. */
  function Unescape(s: string): (r: string)
    ensures |r| <= |s|
  {
    if s == "" then ""
    else if s[0] == '\\' && |s| > 1 && s[1] == ',' then "," + Unescape(s[2..])
    else [s[0]] + Unescape(s[1..])
  }

  /** The list a text stands for. */
  function Split(s: string): (l: seq<string>)
    ensures l != []
    decreases |s|
  {
    match NextSep(s, 0)
    case Nothing => [Unescape(s)]
    case Just(i) => [Unescape(s[..i])] + Split(s[i + 1..])
  }

  /** What the counting pass counts. */
  function Count(s: string): nat
    decreases |s|
  {
    if s == "" then 0
    else match NextSep(s, 0)
      case Nothing => 1
      case Just(i) => 1 + Count(s[i + 1..])
  }

  predicate EndsInSeparator(s: string) { s != "" && Separates(s, |s| - 1) }

  lemma SeparatesBehind(s: string, i: nat, k: nat)
    requires i < |s| && s[i] == ',' && i < k < |s|
    ensures Separates(s, k) == Separates(s[i + 1..], k - i - 1)
  {
  }

  /** Both passes find the same items, but only the splitting pass sees an empty one at the end. */
  lemma {:induction false} PassesAgree(s: string)
    ensures |Split(s)| == Count(s) + if s == "" || EndsInSeparator(s) then 1 else 0
    decreases |s|
  {
    hide Unescape;
    match NextSep(s, 0)
    case Nothing => NoEnd(s);
    case Just(i) =>
      PassesAgree(s[i + 1..]);
      assert |Split(s)| == 1 + |Split(s[i + 1..])|;
      hide Split;
      SeparatesNext(s, i);
  }

  lemma NoEnd(s: string)
    requires NextSep(s, 0) == Nothing
    ensures !EndsInSeparator(s)
  {
  }

  lemma SeparatesNext(s: string, i: nat)
    requires NextSep(s, 0) == Just(i)
    ensures i + 1 == |s| ==> EndsInSeparator(s)
    ensures i + 1 < |s| ==> EndsInSeparator(s) == EndsInSeparator(s[i + 1..])
  {
    hide Escaped;
    assert s[i] == ',' && Separates(s, i);
    hide NextSep;
    if i + 1 < |s| {
      SeparatesBehind(s, i, |s| - 1);
      hide Separates;
      assert |s[i + 1..]| - 1 == |s| - 1 - i - 1;
    }
  }

  function Escape(e: string): string {
    if e == "" then "" else (if e[0] == ',' then "\\," else [e[0]]) + Escape(e[1..])
  }

  /** The text for a list, with every comma of its elements protected. */
  function Join(l: seq<string>): string {
    if l == [] then "" else if |l| == 1 then Escape(l[0]) else Escape(l[0]) + "," + Join(l[1..])
  }

  predicate EndsInBackslash(e: string) { e != "" && e[|e| - 1] == '\\' }

  /** No element but the last ends in a backslash. */
  predicate Joinable(l: seq<string>) {
    forall i :: 0 <= i < |l| - 1 ==> !EndsInBackslash(l[i])
  }

  lemma {:induction false} UnescapeEnd(t: string)
    ensures t != "" ==> Unescape(t) != "" && Unescape(t)[|Unescape(t)| - 1] == t[|t| - 1]
  {
    if |t| > 1 {
      UnescapeEnd(t[1..]);
      UnescapeEnd(t[2..]);
    }
  }

  /** Whatever the text, splitting never gives a list with another backslash at an end. */
  lemma {:induction false} SplitJoinable(s: string)
    ensures Joinable(Split(s))
    decreases |s|
  {
    match NextSep(s, 0)
    case Nothing =>
    case Just(i) =>
      SplitJoinable(s[i + 1..]);
      UnescapeEnd(s[..i]);
      assert Separates(s, i);
      hide Unescape, NextSep;
      JoinableBefore(Unescape(s[..i]), Split(s[i + 1..]));
  }

  lemma JoinableBefore(e: string, l: seq<string>)
    requires !EndsInBackslash(e) && Joinable(l)
    ensures Joinable([e] + l)
  {
    assert forall i :: 0 < i < |[e] + l| ==> ([e] + l)[i] == l[i - 1];
  }

  lemma {:induction false} UnescapeEscape(e: string)
    ensures Unescape(Escape(e)) == e
  {
    if e != "" {
      UnescapeEscape(e[1..]);
      if e[0] == ',' {
        assert Escape(e)[2..] == Escape(e[1..]);
      } else {
        assert Escape(e)[1..] == Escape(e[1..]);
        assert Escape(e[1..]) != "" ==> Escape(e[1..])[0] != ',';
      }
    }
  }

  lemma {:induction false} EscapeHasNoSeparator(e: string, i: nat)
    requires i < |Escape(e)|
    ensures !Separates(Escape(e), i)
  {
    var head := if e[0] == ',' then "\\," else [e[0]];
    if i >= |head| {
      EscapeHasNoSeparator(e[1..], i - |head|);
      assert Escape(e)[i] == Escape(e[1..])[i - |head|];
      assert i > |head| ==> Escape(e)[i - 1] == Escape(e[1..])[i - 1 - |head|];
    }
  }

  lemma {:induction false} EscapeEnd(e: string)
    ensures EndsInBackslash(Escape(e)) == EndsInBackslash(e)
  {
    if |e| > 1 {
      EscapeEnd(e[1..]);
    }
  }

  lemma NextSepIs(s: string, i: nat)
    requires i < |s| && Separates(s, i) && forall k :: 0 <= k < i ==> !Separates(s, k)
    ensures NextSep(s, 0) == Just(i)
  {
  }

  /** A comma behind a text without separators separates if the text does not end in a backslash. */
  lemma FirstSeparator(e: string, tail: string)
    requires !EndsInBackslash(e) && forall k :: 0 <= k < |e| ==> !Separates(e, k)
    ensures var s := e + "," + tail;
      (NextSep(s, 0) == Just(|e|) && s[..|e|] == e && s[|e| + 1..] == tail)
  {
    hide NextSep;
    var s := e + "," + tail;
    assert s[|e|] == ',';
    forall k | 0 <= k < |e| ensures !Separates(s, k) {
      assert !Separates(e, k);
    }
    NextSepIs(s, |e|);
  }

  lemma NextSepNone(s: string)
    requires forall k :: 0 <= k < |s| ==> !Separates(s, k)
    ensures NextSep(s, 0) == Nothing
  {
  }

  /** Splitting the joined text gives the list back. */
  lemma {:induction false} SplitJoin(l: seq<string>)
    requires l != [] && Joinable(l)
    ensures Split(Join(l)) == l
  {
    hide Unescape, Escape, NextSep;
    var e := Escape(l[0]);
    UnescapeEscape(l[0]);
    forall k | 0 <= k < |e| ensures !Separates(e, k) {
      EscapeHasNoSeparator(l[0], k);
    }
    if |l| == 1 {
      NextSepNone(e);
    } else {
      SplitJoin(l[1..]);
      EscapeEnd(l[0]);
      var s := Join(l);
      assert s == e + "," + Join(l[1..]);
      FirstSeparator(e, Join(l[1..]));
      assert l == [l[0]] + l[1..];
    }
  }

  /** Joining is undone exactly for the lists that splitting can give at all. */
  lemma JoinExactly(l: seq<string>)
    requires l != []
    ensures Split(Join(l)) == l <==> Joinable(l)
  {
    if Joinable(l) {
      SplitJoin(l);
    }
    SplitJoinable(Join(l));
  }

  /** What printing an option writes: no comma is protected. */
  function Printed(l: seq<string>): string {
    if l == [] then "" else if |l| == 1 then l[0] else l[0] + "," + Printed(l[1..])
  }

  function Commas(s: string): nat {
    if s == "" then 0 else (if s[0] == ',' then 1 else 0) + Commas(s[1..])
  }

  function TotalCommas(l: seq<string>): nat {
    if l == [] then 0 else Commas(l[0]) + TotalCommas(l[1..])
  }

  function TotalLength(l: seq<string>): nat {
    if l == [] then 0 else |l[0]| + TotalLength(l[1..])
  }

  /** In a text without separators every comma that stays has cost its backslash. */
  lemma {:induction false} UnescapeLength(t: string)
    requires forall i :: 0 <= i < |t| ==> !Separates(t, i)
    ensures |Unescape(t)| + Commas(Unescape(t)) == |t|
    decreases |t|, 1
  {
    if t != "" {
      assert t[0] != ',' by { assert !Separates(t, 0); }
      if t[0] == '\\' && |t| > 1 && t[1] == ',' {
        UnescapeRest(t, 2);
        assert ("," + Unescape(t[2..]))[1..] == Unescape(t[2..]);
      } else {
        UnescapeRest(t, 1);
        assert ([t[0]] + Unescape(t[1..]))[1..] == Unescape(t[1..]);
      }
    }
  }

  lemma {:induction false} UnescapeRest(t: string, n: nat)
    requires 0 < n <= |t| && n <= 2
    requires n == 1 ==> |t| > 1 ==> t[0] != '\\' || t[1] != ','
    requires n == 2 ==> t[1] == ','
    requires forall i :: 0 <= i < |t| ==> !Separates(t, i)
    ensures |Unescape(t[n..])| + Commas(Unescape(t[n..])) == |t[n..]|
    decreases |t|, 0
  {
    var r := t[n..];
    forall i | 0 <= i < |r| ensures !Separates(r, i) {
      assert !Separates(t, i + n);
    }
    UnescapeLength(r);
  }

  lemma {:induction false} SplitLength(s: string)
    ensures TotalLength(Split(s)) + TotalCommas(Split(s)) + |Split(s)| - 1 == |s|
    decreases |s|
  {
    match NextSep(s, 0)
    case Nothing => UnescapeLength(s);
    case Just(i) =>
      SplitLength(s[i + 1..]);
      forall k | 0 <= k < i ensures !Separates(s[..i], k) {
        assert !Separates(s, k);
      }
      UnescapeLength(s[..i]);
      assert Split(s)[1..] == Split(s[i + 1..]);
  }

  lemma {:induction false} PrintedLength(l: seq<string>)
    requires l != []
    ensures |Printed(l)| == TotalLength(l) + |l| - 1
  {
    if |l| > 1 {
      PrintedLength(l[1..]);
    }
  }

  lemma {:induction false} NoCommas(e: string)
    ensures Commas(e) == 0 <==> ',' !in e
    ensures Commas(e) == 0 ==> Escape(e) == e
  {
    if e != "" {
      NoCommas(e[1..]);
      assert e == [e[0]] + e[1..];
    }
  }

  lemma {:induction false} PrintedIsJoined(l: seq<string>)
    requires TotalCommas(l) == 0
    ensures Printed(l) == Join(l)
  {
    if l != [] {
      NoCommas(l[0]);
      PrintedIsJoined(l[1..]);
    }
  }

  lemma {:induction false} NoTotalCommas(l: seq<string>)
    ensures TotalCommas(l) == 0 <==> forall i :: 0 <= i < |l| ==> ',' !in l[i]
  {
    if l != [] {
      NoCommas(l[0]);
      NoTotalCommas(l[1..]);
      assert forall i :: 0 < i < |l| ==> l[i] == l[1..][i - 1];
      assert (forall i :: 0 <= i < |l| ==> ',' !in l[i]) <==>
        (',' !in l[0] && forall i :: 0 <= i < |l[1..]| ==> ',' !in l[1..][i]);
    }
  }

  lemma SplitPrinted(l: seq<string>)
    requires l != []
    ensures Split(Printed(l)) == l <==> Joinable(l) && forall i :: 0 <= i < |l| ==> ',' !in l[i]
  {
    NoTotalCommas(l);
    if TotalCommas(l) == 0 {
      PrintedIsJoined(l);
      JoinExactly(l);
    } else if Split(Printed(l)) == l {
      SplitLength(Printed(l));
      PrintedLength(l);
    }
  }

  // The passes as they run, on a character buffer.

  /** A terminated string `s` in a buffer at `p`. */
  predicate Holds(a: seq<char>, p: nat, s: string) {
    && p + |s| < |a| && a[p..p + |s|] == s && a[p + |s|] == '\0'
    && '\0' !in s
  }

  lemma HoldsAt(a: seq<char>, p: nat, s: string, k: nat)
    requires Holds(a, p, s) && k <= |s|
    ensures Holds(a, p + k, s[k..])
    ensures k < |s| ==> a[p + k] == s[k]
  {
    var t := a[p..p + |s|];
    assert forall i :: 0 <= i < |t| ==> t[i] == a[p + i];
  }

  lemma HoldsChars(a: seq<char>, p: nat, s: string)
    requires Holds(a, p, s)
    ensures forall i :: 0 <= i < |s| ==> a[p + i] == s[i] && s[i] != '\0'
  {
    var t := a[p..p + |s|];
    assert forall i :: 0 <= i < |t| ==> t[i] == a[p + i];
  }

  lemma CharsHold(a: seq<char>, p: nat, s: string)
    requires p + |s| < |a| && a[p + |s|] == '\0'
    requires forall i :: 0 <= i < |s| ==> a[p + i] == s[i] && s[i] != '\0'
    ensures Holds(a, p, s)
  {
  }

  method StrChr(buf: array<char>, p: nat, c: char, ghost s: string) returns (r: Maybe<nat>)
    requires Holds(buf[..], p, s) && c != '\0'
    ensures r.Nothing? ==> c !in s
    ensures r.Just? ==> p <= r.value < p + |s| < buf.Length && s[r.value - p] == c && c !in s[..r.value - p]
  {
    HoldsChars(buf[..], p, s);
    var q := p;
    while buf[q] != '\0'
      invariant p <= q <= p + |s| && c !in s[..q - p]
      invariant q < p + |s| ==> buf[q] == s[q - p] != '\0'
      decreases p + |s| - q
    {
      assert buf[q] == s[q - p];
      if buf[q] == c {
        return Just(q);
      }
      q := q + 1;
    }
    assert s[..q - p] == s;
    r := Nothing;
  }

  /** Moves the string at `p` one place down. */
  method MoveDown(buf: array<char>, p: nat, ghost s: string)
    requires p > 0 && Holds(buf[..], p, s)
    modifies buf
    ensures Holds(buf[..], p - 1, s)
    ensures forall i :: 0 <= i < p - 1 ==> buf[i] == old(buf[i])
  {
    HoldsChars(buf[..], p, s);
    ghost var t := s + "\0";
    assert forall i :: 0 <= i <= |s| ==> buf[p + i] == t[i];
    var q := p;
    while buf[q] != '\0'
      invariant p <= q <= p + |s| && (buf[q] == '\0' <==> q == p + |s|)
      invariant forall i :: 0 <= i < p - 1 ==> buf[i] == old(buf[i])
      invariant forall i :: 0 <= i < q - p ==> buf[p - 1 + i] == t[i]
      invariant forall i :: q - p <= i <= |s| ==> buf[p + i] == t[i]
      decreases p + |s| - q
    {
      assert buf[p + (q - p)] == t[q - p];
      buf[q - 1] := buf[q];
      q := q + 1;
      assert buf[p + (q - p)] == t[q - p];
    }
    buf[q - 1] := '\0';
    forall i | 0 <= i < |s| ensures buf[..][p - 1 + i] == s[i] {
      assert buf[p - 1 + i] == t[i];
    }
    CharsHold(buf[..], p - 1, s);
  }

  lemma UnescapePair(x: string)
    ensures Unescape("\\," + x) == "," + Unescape(x)
  {
    assert ("\\," + x)[2..] == x;
  }

  lemma UnescapeOne(c: char, x: string)
    requires c == '\\' && x != "" ==> x[0] != ','
    ensures Unescape([c] + x) == [c] + Unescape(x)
  {
    assert ([c] + x)[1..] == x;
  }

  lemma CutAt(a: string, b: string, n: nat)
    requires n <= |a|
    ensures a == a[..n] + a[n..] && a + b == a[..n] + (a[n..] + b)
  {
  }

  lemma {:induction false} UnescapeConcat(a: string, b: string)
    requires EndsInBackslash(a) && b != "" ==> b[0] != ','
    ensures Unescape(a + b) == Unescape(a) + Unescape(b)
    decreases |a|, 1
  {
    if a == "" {
      assert a + b == b;
    } else if a[0] == '\\' && |a| > 1 && a[1] == ',' {
      UnescapeConcatPair(a, b);
    } else {
      UnescapeConcatOne(a, b);
    }
  }

  lemma {:induction false} UnescapeConcatPair(a: string, b: string)
    requires EndsInBackslash(a) && b != "" ==> b[0] != ','
    requires |a| > 1 && a[0] == '\\' && a[1] == ','
    ensures Unescape(a + b) == Unescape(a) + Unescape(b)
    decreases |a|, 0
  {
    hide Unescape;
    CutAt(a, b, 2);
    assert a[..2] == "\\,";
    UnescapePair(a[2..]);
    UnescapePair(a[2..] + b);
    UnescapeConcat(a[2..], b);
    Regroup(",", Unescape(a[2..]), Unescape(b));
  }

  lemma {:induction false} UnescapeConcatOne(a: string, b: string)
    requires EndsInBackslash(a) && b != "" ==> b[0] != ','
    requires a != "" && (a[0] == '\\' && |a| > 1 ==> a[1] != ',')
    ensures Unescape(a + b) == Unescape(a) + Unescape(b)
    decreases |a|, 0
  {
    hide Unescape;
    CutAt(a, b, 1);
    assert a[..1] == [a[0]];
    UnescapeOne(a[0], a[1..]);
    assert a[0] == '\\' && a[1..] + b != "" ==> (a[1..] + b)[0] != ',';
    UnescapeOne(a[0], a[1..] + b);
    UnescapeConcat(a[1..], b);
    Regroup([a[0]], Unescape(a[1..]), Unescape(b));
  }

  lemma Regroup(x: string, y: string, z: string)
    ensures x + (y + z) == x + y + z
  {
  }

  lemma {:induction false} UnescapePlain(t: string)
    requires ',' !in t
    ensures Unescape(t) == t
  {
    if t != "" {
      UnescapePlain(t[1..]);
    }
  }

  /** From one protected comma to the next comma. */
  lemma UnescapeTo(s: string, k: nat, i: nat)
    requires k <= i < |s| && s[i] == ',' && (k == 0 || s[k - 1] == ',') && ',' !in s[k..i]
    ensures !Escaped(s, i) ==> Unescape(s[..i]) == Unescape(s[..k]) + s[k..i]
    ensures Escaped(s, i) ==> k < i && Unescape(s[..i + 1]) == Unescape(s[..k]) + s[k..i - 1] + ","
  {
    if Escaped(s, i) {
      UnescapeToEscaped(s, k, i);
    } else {
      hide Unescape;
      assert s[..i] == s[..k] + s[k..i];
      UnescapeConcat(s[..k], s[k..i]);
      UnescapePlain(s[k..i]);
    }
  }

  lemma UnescapeToEscaped(s: string, k: nat, i: nat)
    requires k <= i < |s| && Escaped(s, i) && (k == 0 || s[k - 1] == ',') && ',' !in s[k..i]
    ensures k < i && Unescape(s[..i + 1]) == Unescape(s[..k]) + s[k..i - 1] + ","
  {
    hide Unescape;
    assert k < i;
    var x := s[k..i - 1];
    assert s[..i + 1] == s[..k] + (x + "\\,");
    ShorterPart(s, k, i);
    UnescapeConcat(s[..k], x + "\\,");
    UnescapeConcat(x, "\\,");
    UnescapePlain(x);
    UnescapeComma();
    Regroup(Unescape(s[..k]), x, ",");
  }

  lemma ShorterPart(s: string, k: nat, i: nat)
    requires k < i <= |s| && ',' !in s[k..i]
    ensures ',' !in s[k..i - 1]
  {
    assert s[k..i - 1] == s[k..i][..i - 1 - k];
  }

  lemma UnescapeComma()
    ensures Unescape("\\,") == ","
  {
  }

  lemma {:induction false} NextSepSkips(s: string, k: nat, i: nat)
    requires k <= i <= |s| && ',' !in s[k..i]
    ensures NextSep(s, k) == NextSep(s, i)
    decreases i - k
  {
    if k < i {
      assert s[k] == s[k..i][0];
      assert s[k + 1..i] == s[k..i][1..];
      NextSepSkips(s, k + 1, i);
    }
  }

  /** What a pass leaves of `t`. */
  function Left(edit: bool, t: string): string { if edit then Unescape(t) else t }

  lemma LeftNothing(edit: bool, s: string)
    ensures Left(edit, s[..0]) + s[0..] == s && Left(edit, s[..0]) == ""
  {
    assert s[..0] == "" && "" + s[0..] == s;
  }

  /** The string in the buffer once the first `k` characters of `s` were passed. */
  function Passed(edit: bool, s: string, k: nat): string
    requires k <= |s|
  {
    Left(edit, s[..k]) + s[k..]
  }

  lemma LeftTo(edit: bool, s: string, k: nat, i: nat)
    requires k <= i < |s| && s[i] == ',' && (k == 0 || s[k - 1] == ',') && ',' !in s[k..i]
    ensures !Escaped(s, i) ==> Left(edit, s[..i]) == Left(edit, s[..k]) + s[k..i]
    ensures !Escaped(s, i) ==> Passed(edit, s, i) == Passed(edit, s, k)
    ensures edit && Escaped(s, i) ==> k < i && Left(edit, s[..i + 1]) == Left(edit, s[..k]) + s[k..i - 1] + ","
  {
    UnescapeTo(s, k, i);
    Around(s, k, i);
    hide Unescape, Escaped;
    Associates(Left(edit, s[..k]), s[k..i], s[i..]);
  }

  lemma Around(s: string, k: nat, i: nat)
    requires k <= i <= |s|
    ensures s[..i] == s[..k] + s[k..i] && s[k..] == s[k..i] + s[i..]
  {
  }

  lemma Associates(a: string, b: string, c: string)
    ensures (a + b) + c == a + (b + c)
  {
  }

  lemma LeftAll(edit: bool, s: string, k: nat)
    requires k <= |s| && ',' !in s[k..] && (k == 0 || s[k - 1] == ',')
    ensures Left(edit, s) == Passed(edit, s, k)
  {
    hide Unescape;
    assert s == s[..k] + s[k..];
    UnescapeConcat(s[..k], s[k..]);
    UnescapePlain(s[k..]);
  }

  lemma HoldsJoin(a: seq<char>, p: nat, u: string, v: string)
    requires Holds(a, p + |u|, v) && a[p..p + |u|] == u && '\0' !in u
    ensures Holds(a, p, u + v)
  {
    assert a[p..p + |u + v|] == a[p..p + |u|] + a[p + |u|..p + |u + v|];
  }

  lemma HoldsPart(a: seq<char>, p: nat, u: string, v: string)
    requires Holds(a, p, u + v)
    ensures a[p..p + |u|] == u && '\0' !in u && Holds(a, p + |u|, v)
  {
    HoldsAt(a, p, u + v, |u|);
    assert (u + v)[|u|..] == v;
    assert u == (u + v)[..|u|] == a[p..p + |u + v|][..|u|];
    assert forall c :: c in u ==> c in u + v;
  }

  /** How far the buffer has been passed then. */
  function At(edit: bool, s: string, k: nat): nat
    requires k <= |s|
  {
    |Left(edit, s[..k])|
  }

  /**
   * Finds the next separator of the string at `start`. With `edit` the protecting backslashes
   * before it are removed from the buffer; without, nothing changes.
   */
  method GetNextSep(buf: array<char>, start: nat, edit: bool, ghost s: string) returns (r: Maybe<nat>)
    requires Holds(buf[..], start, s)
    modifies buf
    ensures !edit ==> buf[..] == old(buf[..])
    ensures NextSep(s, 0).Nothing? ==> r == Nothing && Holds(buf[..], start, Left(edit, s))
    ensures NextSep(s, 0).Just? ==> (var i := NextSep(s, 0).value;
      r == Just(start + At(edit, s, i)) && Holds(buf[..], start, Passed(edit, s, i)))
  {
    hide Holds, NextSep, Left, At, Passed;
    var p := start;
    ghost var k: nat := 0;
    PassedNothing(edit, s);
    while true
      invariant k <= |s| && (k == 0 || s[k - 1] == ',') && NextSep(s, 0) == NextSep(s, k)
      invariant p == start + At(edit, s, k)
      invariant Holds(buf[..], start, Passed(edit, s, k))
      invariant !edit ==> buf[..] == old(buf[..])
      decreases |s| - k
    {
      HoldsRest(buf[..], start, edit, s, k);
      var found := StrChr(buf, p, LIST_SEPARATOR, s[k..]);
      if found.Nothing? {
        NoComma(edit, s, k);
        return Nothing;
      }
      var q := found.value;
      ghost var i := k + (q - p);
      AtComma(buf[..], start, edit, s, k, i, q);
      if q > start && buf[q - 1] == '\\' {
        if edit {
          DropBackslash(buf, start, q, s, k, i);
          p := q;
        } else {
          p := q + 1;
          PassedPlain(s, k, i + 1);
        }
        k := i + 1;
      } else {
        return Just(q);
      }
    }
    r := Nothing;
  }

  lemma PassedNothing(edit: bool, s: string)
    ensures Passed(edit, s, 0) == s && At(edit, s, 0) == 0
  {
    LeftNothing(edit, s);
  }

  lemma PassedPlain(s: string, k: nat, m: nat)
    requires k <= |s| && m <= |s|
    ensures At(false, s, m) == m && At(false, s, k) == k && Passed(false, s, m) == Passed(false, s, k)
  {
    assert s[..m] + s[m..] == s == s[..k] + s[k..];
  }

  lemma HoldsRest(a: seq<char>, start: nat, edit: bool, s: string, k: nat)
    requires k <= |s| && Holds(a, start, Passed(edit, s, k))
    ensures Holds(a, start + At(edit, s, k), s[k..])
  {
    hide Holds, Left;
    HoldsPart(a, start, Left(edit, s[..k]), s[k..]);
  }

  lemma NoComma(edit: bool, s: string, k: nat)
    requires k <= |s| && (k == 0 || s[k - 1] == ',') && ',' !in s[k..]
    ensures NextSep(s, k) == Nothing && Left(edit, s) == Passed(edit, s, k)
  {
    NextSepSkips(s, k, |s|);
    LeftAll(edit, s, k);
  }

  lemma NextSepFound(s: string, i: nat)
    requires i < |s| && s[i] == ','
    ensures NextSep(s, i) == if Escaped(s, i) then NextSep(s, i + 1) else Just(i)
  {
  }

  /** The character before the found comma is the same before and after the buffer was edited. */
  lemma CharBefore(edit: bool, s: string, k: nat, j: nat)
    requires k + j < |s| && (k == 0 || s[k - 1] == ',')
    ensures |Passed(edit, s, k)| == At(edit, s, k) + |s| - k
    ensures At(edit, s, k) + j > 0 <==> k + j > 0
    ensures k + j > 0 ==> (Passed(edit, s, k)[At(edit, s, k) + j - 1] == '\\' <==> s[k + j - 1] == '\\')
  {
    hide Unescape;
    UnescapeEnd(s[..k]);
    var left := Left(edit, s[..k]);
    if j > 0 {
      assert (left + s[k..])[|left| + j - 1] == s[k + j - 1];
    } else if k > 0 {
      assert (left + s[k..])[|left| - 1] == left[|left| - 1] == s[..k][k - 1];
    }
  }

  lemma LeftToAt(edit: bool, s: string, k: nat, i: nat)
    requires k <= i < |s| && s[i] == ',' && (k == 0 || s[k - 1] == ',') && ',' !in s[k..i] && !Escaped(s, i)
    ensures At(edit, s, i) == At(edit, s, k) + (i - k) && Passed(edit, s, i) == Passed(edit, s, k)
  {
    LeftTo(edit, s, k, i);
  }

  /** What the check at a found comma decides. */
  lemma AtComma(a: seq<char>, start: nat, edit: bool, s: string, k: nat, i: nat, q: nat)
    requires k <= i < |s| && (k == 0 || s[k - 1] == ',') && Holds(a, start, Passed(edit, s, k))
    requires q == start + At(edit, s, k) + (i - k) < |a|
    requires s[k..][i - k] == ',' && ',' !in s[k..][..i - k]
    ensures s[i] == ',' && ',' !in s[k..i]
    ensures NextSep(s, k) == if Escaped(s, i) then NextSep(s, i + 1) else Just(i)
    ensures Escaped(s, i) <==> q > start && a[q - 1] == '\\'
    ensures !Escaped(s, i) ==> q == start + At(edit, s, i) && Passed(edit, s, i) == Passed(edit, s, k)
  {
    hide Holds, NextSep, Left, At, Passed;
    assert s[k..][..i - k] == s[k..i];
    NextSepSkips(s, k, i);
    NextSepFound(s, i);
    if !Escaped(s, i) {
      LeftToAt(edit, s, k, i);
    }
    CharBefore(edit, s, k, i - k);
    if q > start {
      HoldsOne(a, start, Passed(edit, s, k), q - 1 - start);
    }
  }

  lemma HoldsOne(a: seq<char>, p: nat, s: string, j: nat)
    requires Holds(a, p, s) && j < |s|
    ensures p + j < |a| && a[p + j] == s[j]
  {
    HoldsChars(a, p, s);
  }

  /** One removal: the comma found at `q` moves onto its backslash. */
  method DropBackslash(buf: array<char>, start: nat, q: nat, ghost s: string, ghost k: nat, ghost i: nat)
    requires k <= i < |s| && (k == 0 || s[k - 1] == ',') && Holds(buf[..], start, Passed(true, s, k))
    requires q == start + At(true, s, k) + (i - k)
    requires s[i] == ',' && ',' !in s[k..i] && Escaped(s, i)
    modifies buf
    ensures Holds(buf[..], start, Passed(true, s, i + 1)) && q == start + At(true, s, i + 1)
  {
    ghost var u := Left(true, s[..k]) + s[k..i - 1];
    LeftTo(true, s, k, i);
    assert q == start + At(true, s, i + 1) && q - 1 == start + |u|;
    hide Holds, Left, Passed, At;
    DropBackslashTexts(s, k, i);
    BehindBackslash(buf[..], start, u, s[i..]);
    ghost var before := buf[..];
    MoveDown(buf, q, s[i..]);
    MovedDown(before, buf[..], start, u, s[i..]);
  }

  lemma BehindBackslash(a: seq<char>, start: nat, u: string, v: string)
    requires Holds(a, start, u + (['\\'] + v))
    ensures Holds(a, start + |u| + 1, v)
  {
    hide Holds;
    HoldsPart(a, start, u, ['\\'] + v);
    HoldsPart(a, start + |u|, ['\\'], v);
  }

  lemma MovedDown(before: seq<char>, after: seq<char>, start: nat, u: string, v: string)
    requires Holds(before, start, u + (['\\'] + v)) && Holds(after, start + |u|, v) && |before| == |after|
    requires forall i :: 0 <= i < start + |u| ==> after[i] == before[i]
    ensures Holds(after, start, u + v)
  {
    HoldsPart(before, start, u, ['\\'] + v);
    assert |before| >= start + |u|;
    assert after[start..start + |u|] == before[start..start + |u|] == u;
    HoldsJoin(after, start, u, v);
  }

  lemma DropBackslashTexts(s: string, k: nat, i: nat)
    requires 0 < i < |s| && k < i && s[i - 1] == '\\' && s[i] == ','
    requires Left(true, s[..i + 1]) == Left(true, s[..k]) + s[k..i - 1] + ","
    ensures var u := Left(true, s[..k]) + s[k..i - 1];
      (Passed(true, s, k) == u + (['\\'] + s[i..]) && Passed(true, s, i + 1) == u + s[i..])
  {
    hide Left;
    assert s[k..] == s[k..i - 1] + (['\\'] + s[i..]);
    assert s[i..] == "," + s[i + 1..];
  }

  datatype Error = MissingParam | Invalid | OutOfRange | UnknownName

  /** What parsing an option value yields: a list, or the reason why not. */
  datatype Result = Parsed(list: seq<string>) | Failed(error: Error)

  function ParseList(param: string, min: Maybe<int>, max: Maybe<int>): Result {
    if param == "" then Failed(MissingParam)
    else if (min.Just? && Count(param) < min.value) || (max.Just? && Count(param) > max.value) then Failed(OutOfRange)
    else Parsed(Split(param))
  }

  /** The joined text of a list is a value that parses to the list, with the two lists of no text excepted. */
  lemma ParseJoined(l: seq<string>)
    ensures ParseList(Join(l), Nothing, Nothing) == Parsed(l) <==> l != [] && l != [""] && Joinable(l)
  {
    if l != [] {
      JoinExactly(l);
      assert Join([""]) == "";
      if |l| == 1 && l[0] != "" {
        UnescapeEscape(l[0]);
        assert Join(l) != "";
      }
    }
  }

  /**
   * A printed value is read back exactly when the list is neither empty nor a single empty string, no
   * element holds a comma and only the last may end in a backslash.
   */
  lemma PrintExactly(l: seq<string>)
    ensures ParseList(Printed(l), Nothing, Nothing) == Parsed(l) <==>
      (l != [] && l != [""] && Joinable(l) && forall i :: 0 <= i < |l| ==> ',' !in l[i])
  {
    hide Split, Joinable;
    if l != [] {
      SplitPrinted(l);
      PrintedLength(l);
      assert |l| == 1 ==> l == [l[0]];
    }
  }

  /** A list in slots that a null slot ends. */
  predicate Filled(slots: seq<Maybe<string>>, l: seq<string>) {
    && |l| < |slots| && slots[|l|] == Nothing
    && forall i :: 0 <= i < |l| ==> slots[i] == Just(l[i])
  }

  method CountItems(buf: array<char>, ghost s: string) returns (n: nat)
    requires Holds(buf[..], 0, s)
    modifies buf
    ensures buf[..] == old(buf[..]) && n == Count(s)
  {
    hide Holds, NextSep, Count, Passed, At, Left;
    n := 0;
    var p: nat := 0;
    ghost var t := s;
    CountNothing();
    FirstChar(buf[..], p, t);
    while buf[p] != '\0'
      invariant p < buf.Length && (buf[p] == '\0' <==> t == "")
      invariant Holds(buf[..], p, t) && n + Count(t) == Count(s) && buf[..] == old(buf[..])
      decreases |t|
    {
      CountStep(t);
      var q := GetNextSep(buf, p, false, t);
      if q.Nothing? {
        n := n + 1;
        return;
      }
      ghost var i := NextSep(t, 0).value;
      FoundPlain(t, i);
      HoldsAt(buf[..], p, t, i + 1);
      p, t := q.value + 1, t[i + 1..];
      n := n + 1;
      FirstChar(buf[..], p, t);
    }
  }

  lemma CountStep(t: string)
    requires t != ""
    ensures Count(t) == match NextSep(t, 0) case Nothing => 1 case Just(i) => 1 + Count(t[i + 1..])
  {
  }

  lemma CountNothing()
    ensures Count("") == 0
  {
  }

  lemma FoundPlain(t: string, i: nat)
    requires i <= |t|
    ensures At(false, t, i) == i && Passed(false, t, i) == t
  {
    PassedPlain(t, 0, i);
    PassedNothing(false, t);
  }

  lemma FirstChar(a: seq<char>, p: nat, t: string)
    requires Holds(a, p, t)
    ensures p < |a| && (a[p] == '\0' <==> t == "")
  {
    HoldsChars(a, p, t);
    assert t != "" ==> a[p + 0] == t[0];
  }

  method Duplicate(buf: array<char>, p: nat, ghost s: string) returns (t: string)
    requires Holds(buf[..], p, s)
    ensures t == s
  {
    HoldsChars(buf[..], p, s);
    var q := p;
    while buf[q] != '\0'
      invariant p <= q <= p + |s|
      invariant q < p + |s| ==> buf[q] == s[q - p] != '\0'
      decreases p + |s| - q
    {
      q := q + 1;
      assert q < p + |s| ==> buf[p + (q - p)] == s[q - p];
    }
    t := buf[p..q];
  }

  /** One item of the splitting pass, and where the next one begins. */
  method TakeItem(buf: array<char>, p: nat, ghost t: string) returns (item: string, next: Maybe<nat>)
    requires Holds(buf[..], p, t)
    modifies buf
    ensures NextSep(t, 0).Nothing? ==> next == Nothing && item == Unescape(t)
    ensures NextSep(t, 0).Just? ==> (var i := NextSep(t, 0).value;
      next.Just? && item == Unescape(t[..i]) && Holds(buf[..], next.value, t[i + 1..]))
  {
    hide Holds, NextSep, Passed, At, Left;
    var q := GetNextSep(buf, p, true, t);
    if q.Nothing? {
      LeftIs(t);
      item := Duplicate(buf, p, Unescape(t));
      return item, Nothing;
    }
    ghost var i := NextSep(t, 0).value;
    PassedIs(t, i);
    HoldsPart(buf[..], p, Unescape(t[..i]), t[i..]);
    HoldsAt(buf[..], q.value, t[i..], 1);
    assert t[i..][1..] == t[i + 1..];
    item, next := buf[p..q.value], Just(q.value + 1);
  }

  /** The splitting pass; the slots it was given for the counted items are enough. */
  method SplitItems(buf: array<char>, n: nat, ghost s: string) returns (res: array<Maybe<string>>)
    requires Holds(buf[..], 0, s) && s != "" && n == Count(s)
    modifies buf
    ensures fresh(res) && Filled(res[..], Split(s))
  {
    hide Holds, NextSep, Count, EndsInSeparator, Unescape;
    PassesAgree(s);
    ghost var all := Split(s);
    res := new Maybe<string>[n + 2];
    var m, p := 0, 0;
    ghost var t := s;
    while true
      invariant Holds(buf[..], p, t) && m + |Split(t)| == |all| <= n + 1
      invariant all[m..] == Split(t)
      invariant forall i :: 0 <= i < m ==> res[i] == Just(all[i])
      decreases |t|
    {
      assert all[m] == all[m..][0] && all[m + 1..] == all[m..][1..];
      var item, next := TakeItem(buf, p, t);
      res[m] := Just(item);
      m := m + 1;
      if next.Nothing? {
        break;
      }
      p, t := next.value, t[NextSep(t, 0).value + 1..];
    }
    res[m] := Nothing;
  }

  lemma LeftIs(t: string)
    ensures Left(true, t) == Unescape(t)
  {
  }

  lemma PassedIs(t: string, i: nat)
    requires i <= |t|
    ensures Passed(true, t, i) == Unescape(t[..i]) + t[i..] && At(true, t, i) == |Unescape(t[..i])|
  {
  }

  /** Parses an option value, given as a string without a terminator in it. */
  method ParseItems(param: string, min: Maybe<int>, max: Maybe<int>, store: bool)
    returns (error: Maybe<Error>, res: array<Maybe<string>>)
    requires '\0' !in param
    ensures error.Just? ==> ParseList(param, min, max) == Failed(error.value)
    ensures error.Nothing? ==> ParseList(param, min, max) == Parsed(Split(param))
    ensures error.Nothing? && store ==> fresh(res) && Filled(res[..], Split(param))
  {
    hide Count, Split;
    res := new Maybe<string>[0];
    if param == "" {
      return Just(MissingParam), res;
    }
    var str := new char[|param| + 1](i => if 0 <= i < |param| then param[i] else '\0');
    assert str[..] == param + ['\0'];
    CharsHold(str[..], 0, param);
    var n := CountItems(str, param);
    CountsSome(param);
    if n == 0 {
      return Just(Invalid), res;
    }
    if (min.Just? && n < min.value) || (max.Just? && n > max.value) {
      return Just(OutOfRange), res;
    }
    error := Nothing;
    if store {
      res := SplitItems(str, n, param);
    }
  }

  lemma CountsSome(s: string)
    requires s != ""
    ensures Count(s) > 0
  {
  }

  // Changing a list that is there: the suffixes of the option's name.

  datatype ListOp = SetList | Add | Prepend | Delete | Clear

  /** What the part of the name behind a wildcard option asks for; Nothing if that is unknown. */
  function OpOf(wildcard: bool, suffix: string): Maybe<ListOp> {
    if !wildcard || suffix == "" then Just(SetList)
    else if C.SameNoCase(suffix, "-add") then Just(Add)
    else if C.SameNoCase(suffix, "-pre") then Just(Prepend)
    else if C.SameNoCase(suffix, "-del") then Just(Delete)
    else if C.SameNoCase(suffix, "-clr") then Just(Clear)
    else Nothing
  }

  /** The text is the number of place `i`. */
  predicate Names(text: string, i: nat) { N.Long(text, false) == (i, "") }

  predicate Named(texts: seq<string>, i: nat) { exists k :: 0 <= k < |texts| && Names(texts[k], i) }

  /** The elements of `l` from `i` on whose places are not named, in order. */
  function Unnamed(l: seq<string>, texts: seq<string>, i: nat): seq<string>
    requires i <= |l|
    decreases |l| - i
  {
    if i == |l| then [] else (if Named(texts, i) then [] else [l[i]]) + Unnamed(l, texts, i + 1)
  }

  function Changed(op: ListOp, l: seq<string>, items: seq<string>): seq<string> {
    match op
    case SetList => items
    case Add => l + items
    case Prepend => items + l
    case Delete => Unnamed(l, items, 0)
    case Clear => []
  }

  /** The numbers of `n` places. */
  function PlaceTexts(from: nat, n: nat): (r: seq<string>)
    ensures |r| == n && forall k {:trigger r[k]} :: 0 <= k < n ==> r[k] == N.Decimal(from + k)
  {
    seq(n, k requires 0 <= k => N.Decimal(from + k))
  }

  /** Deleting the places that adding has filled gives the list back. */
  lemma DeleteUndoesAdd(l: seq<string>, items: seq<string>)
    requires |l| + |items| <= N.LONG_MAX
    ensures Changed(Delete, Changed(Add, l, items), PlaceTexts(|l|, |items|)) == l
  {
    var texts := PlaceTexts(|l|, |items|);
    forall i: nat | i < |l + items| ensures Named(texts, i) <==> |l| <= i {
      NamedPlaces(|l|, |items|, i);
    }
    UnnamedFirst(l + items, texts, |l|, 0);
    assert (l + items)[0..|l|] == l;
  }

  /** An empty text is the number 0, so a trailing separator deletes the first element as well. */
  lemma EmptyNamesFirst(l: seq<string>, texts: seq<string>)
    requires l != [] && "" in texts
    ensures Changed(Delete, l, texts) == Unnamed(l, texts, 1)
  {
    var k :| 0 <= k < |texts| && texts[k] == "";
    assert N.Blanks("") == 0 && Names(texts[k], 0);
  }

  /** So `1,` empties a list of two. */
  lemma TrailingComma(a: string, b: string)
    ensures Split("1,") == ["1", ""] && Changed(Delete, [a, b], Split("1,")) == []
  {
    OneAndNothing();
    NamesPlace(1, 1);
    hide Split, Names, N.Decimal, N.Long;
    var texts := ["1", ""];
    assert Names(texts[0], 1);
    EmptyNamesFirst([a, b], texts);
  }

  lemma OneAndNothing()
    ensures Split("1,") == ["1", ""] && N.Decimal(1) == "1"
  {
    assert NextSep("1,", 0) == Just(1);
    assert "1,"[..1] == "1" && "1,"[2..] == "" && "1"[1..] == "";
    assert Unescape("1") == "1" && Split("") == [""];
  }

  lemma NamesPlace(n: nat, i: nat)
    requires n <= N.LONG_MAX
    ensures Names(N.Decimal(n), i) <==> n == i
  {
    hide N.Decimal, N.Long;
    N.LongOfDecimal(n);
  }

  lemma NamedPlaces(from: nat, n: nat, i: nat)
    requires from + n <= N.LONG_MAX && i < from + n
    ensures Named(PlaceTexts(from, n), i) <==> from <= i
  {
    hide PlaceTexts, Names;
    var texts := PlaceTexts(from, n);
    forall k: nat | k < n ensures Names(texts[k], i) <==> from + k == i {
      NamesPlace(from + k, i);
    }
    if from <= i {
      assert Names(texts[i - from], i);
    }
  }

  lemma {:induction false} UnnamedFirst(l: seq<string>, texts: seq<string>, n: nat, i: nat)
    requires i <= |l| && n <= |l|
    requires forall j: nat :: j < |l| ==> (Named(texts, j) <==> n <= j)
    ensures Unnamed(l, texts, i) == if i <= n then l[i..n] else []
    decreases |l| - i
  {
    hide Named;
    if i < |l| {
      UnnamedFirst(l, texts, n, i + 1);
      if i < n {
        CutFirst(l, i, n);
      }
    }
  }

  lemma CutFirst(l: seq<string>, i: nat, n: nat)
    requires i < n <= |l|
    ensures l[i..n] == [l[i]] + l[i + 1..n]
  {
  }

  /** A list variable: null, or slots that a null slot ends. */
  ghost predicate IsList(a: array?<Maybe<string>>, l: seq<string>)
    reads a
  {
    if a == null then l == [] else Filled(a[..], l)
  }

  method Length(a: array?<Maybe<string>>, ghost l: seq<string>) returns (n: nat)
    requires IsList(a, l)
    ensures n == |l|
  {
    n := 0;
    if a != null {
      while a[n] != Nothing
        invariant n <= |l|
        decreases |l| - n
      {
        n := n + 1;
      }
    }
  }

  /** Adds the `n` items of `add`, in front or at the end. */
  method StrListAdd(lst: array?<Maybe<string>>, add: array<Maybe<string>>, n: nat, pre: bool,
      ghost l: seq<string>, ghost items: seq<string>) returns (r: array<Maybe<string>>)
    requires IsList(lst, l) && Filled(add[..], items) && n == |items|
    ensures fresh(r) && Filled(r[..], if pre then items + l else l + items)
  {
    var ln := Length(lst, l);
    r := new Maybe<string>[n + ln + 1];
    var at := if pre then n else 0;
    forall i | 0 <= i < ln {
      r[at + i] := lst[i];
    }
    var from := if pre then 0 else ln;
    forall i | 0 <= i < n {
      r[from + i] := add[i];
    }
    r[ln + n] := Nothing;
    assert forall i :: 0 <= i < ln ==> r[at + i] == Just(l[i]);
    ghost var all := if pre then items + l else l + items;
    forall i | 0 <= i < |all| ensures r[i] == Just(all[i]) {
      if pre {
        assert i >= n ==> r[at + (i - n)] == Just(l[i - n]);
      } else {
        assert i < ln ==> r[at + i] == Just(l[i]);
        assert i >= ln ==> r[from + (i - ln)] == Just(items[i - ln]);
      }
    }
  }

  /** `slots` is `l` with the places named by the first `k` texts taken out. */
  predicate Holed(slots: seq<Maybe<string>>, l: seq<string>, texts: seq<string>, k: nat)
    requires k <= |texts|
  {
    |slots| > |l| && forall i :: 0 <= i < |l| ==> slots[i] == if Named(texts[..k], i) then Nothing else Just(l[i])
  }

  /** How many places from `i` on are not taken out. */
  function Present(slots: seq<Maybe<string>>, i: nat, n: nat): (c: nat)
    requires i <= n <= |slots|
    ensures c <= n - i
    decreases n - i
  {
    if i == n then 0 else (if slots[i].Just? then 1 else 0) + Present(slots, i + 1, n)
  }

  lemma {:induction false} PresentWithout(slots: seq<Maybe<string>>, i: nat, n: nat, k: nat)
    requires i <= k < n <= |slots| && slots[k].Just?
    ensures Present(slots, i, n) == Present(slots[k := Nothing], i, n) + 1
    decreases n - i
  {
    if i < k {
      PresentWithout(slots, i + 1, n, k);
    } else {
      PresentSame(slots, slots[k := Nothing], i + 1, n);
    }
  }

  lemma {:induction false} PresentSame(a: seq<Maybe<string>>, b: seq<Maybe<string>>, i: nat, n: nat)
    requires i <= n <= |a| == |b| && forall j :: i <= j < n ==> a[j] == b[j]
    ensures Present(a, i, n) == Present(b, i, n)
    decreases n - i
  {
    if i < n {
      PresentSame(a, b, i + 1, n);
    }
  }

  lemma {:induction false} PresentAll(slots: seq<Maybe<string>>, i: nat, n: nat)
    requires i <= n <= |slots| && forall j :: i <= j < n ==> slots[j].Just?
    ensures Present(slots, i, n) == n - i
    decreases n - i
  {
    if i < n {
      PresentAll(slots, i + 1, n);
    }
  }

  lemma {:induction false} PresentIsUnnamed(slots: seq<Maybe<string>>, l: seq<string>, texts: seq<string>, i: nat)
    requires i <= |l| && Holed(slots, l, texts, |texts|)
    ensures Present(slots, i, |l|) == |Unnamed(l, texts, i)|
    decreases |l| - i
  {
    hide Named;
    if i < |l| {
      PresentIsUnnamed(slots, l, texts, i + 1);
      assert texts[..|texts|] == texts;
    }
  }

  /** One more text names one place, or none. */
  lemma NamedNext(texts: seq<string>, k: nat, i: nat)
    requires k < |texts|
    ensures Named(texts[..k + 1], i) <==> Named(texts[..k], i) || Names(texts[k], i)
  {
    hide Names;
    var head, longer := texts[..k], texts[..k + 1];
    assert longer[k] == texts[k] && forall j :: 0 <= j < k ==> longer[j] == head[j];
    if Named(head, i) {
      var j :| 0 <= j < k && Names(head[j], i);
      assert Names(longer[j], i);
    }
    if Names(texts[k], i) {
      assert Names(longer[k], i);
    }
    if Named(longer, i) && !Names(texts[k], i) {
      var j :| 0 <= j < k + 1 && Names(longer[j], i);
      assert Names(head[j], i);
    }
  }

  /** What one text does to the slots. */
  lemma HoledNext(before: seq<Maybe<string>>, after: seq<Maybe<string>>, l: seq<string>, texts: seq<string>, k: nat)
    requires k < |texts| && Holed(before, l, texts, k) && |after| == |before|
    requires forall i: nat :: i < |l| ==> after[i] == if Names(texts[k], i) then Nothing else before[i]
    ensures Holed(after, l, texts, k + 1)
  {
    hide Named, Names;
    forall i: nat | i < |l| ensures after[i] == if Named(texts[..k + 1], i) then Nothing else Just(l[i]) {
      NamedNext(texts, k, i);
    }
  }

  /** Takes the places out that the items name, each one once. */
  method TakeOut(lst: array<Maybe<string>>, del: array<Maybe<string>>, ln: nat,
      ghost l: seq<string>, ghost texts: seq<string>) returns (s: nat)
    requires lst != del && Filled(lst[..], l) && Filled(del[..], texts) && ln == |l|
    modifies lst
    ensures Holed(lst[..], l, texts, |texts|) && s == Present(lst[..], 0, |l|)
  {
    hide Named, Present;
    s := ln;
    var i := 0;
    PresentAll(lst[..], 0, ln);
    NothingNamed(lst[..], l, texts);
    while del[i] != Nothing
      invariant i <= |texts| && Holed(lst[..], l, texts, i) && s == Present(lst[..], 0, |l|)
      decreases |texts| - i
    {
      ghost var before := lst[..];
      var (idx, ep) := N.Long(del[i].value, false);
      if ep == "" && 0 <= idx < ln && lst[idx] != Nothing {
        PresentWithout(before, 0, |l|, idx);
        lst[idx] := Nothing;
        assert lst[..] == before[idx := Nothing];
        s := s - 1;
      }
      HoledNext(before, lst[..], l, texts, i);
      i := i + 1;
    }
  }

  lemma NothingNamed(slots: seq<Maybe<string>>, l: seq<string>, texts: seq<string>)
    requires Filled(slots, l)
    ensures Holed(slots, l, texts, 0)
  {
    assert texts[..0] == [];
  }

  method StrListDel(lst: array?<Maybe<string>>, del: array<Maybe<string>>,
      ghost l: seq<string>, ghost texts: seq<string>) returns (r: array?<Maybe<string>>)
    requires lst != del && IsList(lst, l) && Filled(del[..], texts)
    modifies lst
    ensures IsList(r, Unnamed(l, texts, 0)) && (r == null || fresh(r))
  {
    hide Named, Present;
    if lst == null {
      return null;
    }
    var ln := Length(lst, l);
    var s := TakeOut(lst, del, ln, l, texts);
    PresentIsUnnamed(lst[..], l, texts, 0);
    if s == 0 {
      return null;
    }
    var d := Compact(lst, ln, s, l, texts);
    r := d;
  }

  lemma UnnamedStep(l: seq<string>, texts: seq<string>, i: nat)
    requires i < |l|
    ensures Unnamed(l, texts, i) == (if Named(texts, i) then [] else [l[i]]) + Unnamed(l, texts, i + 1)
    ensures Unnamed(l, texts, |l|) == []
  {
    hide Named;
  }

  lemma HoledAt(slots: seq<Maybe<string>>, l: seq<string>, texts: seq<string>, i: nat)
    requires Holed(slots, l, texts, |texts|) && i < |l|
    ensures slots[i] == if Named(texts, i) then Nothing else Just(l[i])
  {
    hide Named;
    assert texts[..|texts|] == texts;
  }

  /** The places that are left, side by side. */
  method Compact(lst: array<Maybe<string>>, ln: nat, s: nat, ghost l: seq<string>, ghost texts: seq<string>)
    returns (d: array<Maybe<string>>)
    requires Holed(lst[..], l, texts, |texts|) && ln == |l| && s == |Unnamed(l, texts, 0)|
    ensures fresh(d) && Filled(d[..], Unnamed(l, texts, 0))
  {
    hide Named, Holed, Unnamed;
    ghost var all, slots := Unnamed(l, texts, 0), lst[..];
    assert ln <= |slots| by { HoledLength(slots, l, texts); }
    d := new Maybe<string>[s + 1];
    var n := 0;
    NothingUnnamed(l, texts);
    for i := 0 to ln
      invariant n <= |all| && all[n..] == Unnamed(l, texts, i)
      invariant forall j :: 0 <= j < n ==> d[j] == Just(all[j])
      invariant lst[..] == slots
    {
      UnnamedStep(l, texts, i);
      HoledAt(slots, l, texts, i);
      assert lst[i] == slots[i];
      if lst[i] == Nothing {
        continue;
      }
      FirstOf(all, n, l[i], Unnamed(l, texts, i + 1));
      d[n] := lst[i];
      n := n + 1;
    }
    d[s] := Nothing;
  }

  lemma FirstOf(all: seq<string>, n: nat, x: string, rest: seq<string>)
    requires n <= |all| && all[n..] == [x] + rest
    ensures n < |all| && all[n] == x && all[n + 1..] == rest
  {
    assert all[n..][0] == x && all[n..][1..] == rest;
  }

  lemma NothingUnnamed(l: seq<string>, texts: seq<string>)
    ensures Unnamed(l, texts, |l|) == []
  {
  }

  lemma HoledLength(slots: seq<Maybe<string>>, l: seq<string>, texts: seq<string>)
    requires Holed(slots, l, texts, |texts|)
    ensures |slots| > |l|
  {
  }

  /** What an option value yields besides a changed list. */
  datatype Answer = Cleared | Accepted | Refused(error: Error)

  function Answered(op: Maybe<ListOp>, param: Maybe<string>, min: Maybe<int>, max: Maybe<int>): Answer {
    if op.Nothing? then Refused(UnknownName)
    else if op.value.Clear? then Cleared
    else if param.Nothing? then Refused(MissingParam)
    else match ParseList(param.value, min, max) case Parsed(_) => Accepted case Failed(e) => Refused(e)
  }

  /** The list afterwards: unchanged unless the value is accepted and stored. */
  function Stored(op: Maybe<ListOp>, param: Maybe<string>, min: Maybe<int>, max: Maybe<int>,
      l: seq<string>): seq<string>
  {
    match Answered(op, param, min, max)
    case Cleared => []
    case Accepted => Changed(op.value, l, Split(param.value))
    case Refused(_) => l
  }

  lemma DifferAt(a: string, b: string, i: nat)
    requires i < |a| == |b| && C.Lower(a[i]) != C.Lower(b[i])
    ensures !C.SameNoCase(a, b)
  {
  }

  lemma SameText(s: string)
    ensures C.SameNoCase(s, s)
  {
  }

  lemma SameAdd()
    ensures C.SameNoCase("-ADD", "-add")
  {
    assert C.Lower('A') == 'a' && C.Lower('D') == 'd' && C.Lower('-') == '-';
  }

  /** The suffixes and what they ask for; nothing else is known. Their case does not matter. */
  lemma Suffixes(suffix: string)
    ensures OpOf(true, "") == Just(SetList) == OpOf(false, suffix)
    ensures OpOf(true, "-add") == Just(Add) == OpOf(true, "-ADD")
    ensures OpOf(true, "-pre") == Just(Prepend)
    ensures OpOf(true, "-del") == Just(Delete) && OpOf(true, "-clr") == Just(Clear)
    ensures suffix != "" && (forall k :: k in {"-add", "-pre", "-del", "-clr"} ==> !C.SameNoCase(suffix, k)) ==>
      OpOf(true, suffix) == Nothing
  {
    AddSuffix();
    PreSuffix();
    DelSuffix();
    ClrSuffix();
    hide C.SameNoCase;
  }

  lemma AddSuffix()
    ensures OpOf(true, "-add") == Just(Add) == OpOf(true, "-ADD")
  {
    SameAdd();
    SameText("-add");
    hide C.SameNoCase;
  }

  lemma PreSuffix()
    ensures OpOf(true, "-pre") == Just(Prepend)
  {
    DifferAt("-pre", "-add", 1);
    SameText("-pre");
    hide C.SameNoCase;
  }

  lemma DelSuffix()
    ensures OpOf(true, "-del") == Just(Delete)
  {
    DifferAt("-del", "-add", 1);
    DifferAt("-del", "-pre", 1);
    SameText("-del");
    hide C.SameNoCase;
  }

  lemma ClrSuffix()
    ensures OpOf(true, "-clr") == Just(Clear)
  {
    DifferAt("-clr", "-add", 1);
    DifferAt("-clr", "-pre", 1);
    DifferAt("-clr", "-del", 1);
    SameText("-clr");
    hide C.SameNoCase;
  }

  /**
   * So the joined text of a list replaces what was there, is put behind it or before it, and an unknown
   * suffix changes nothing.
   */
  lemma SuffixEffects(l: seq<string>, items: seq<string>, suffix: string, min: Maybe<int>, max: Maybe<int>)
    requires items != [] && items != [""] && Joinable(items)
    ensures var text := Just(Join(items));
      (Stored(OpOf(true, ""), text, Nothing, Nothing, l) == items
      && Stored(OpOf(false, suffix), text, Nothing, Nothing, l) == items
      && Stored(OpOf(true, "-add"), text, Nothing, Nothing, l) == l + items
      && Stored(OpOf(true, "-pre"), text, Nothing, Nothing, l) == items + l)
    ensures Stored(OpOf(true, "-clr"), Nothing, min, max, l) == []
    ensures suffix != "" && (forall k :: k in {"-add", "-pre", "-del", "-clr"} ==> !C.SameNoCase(suffix, k)) ==>
      Stored(OpOf(true, suffix), Just(Join(items)), min, max, l) == l
  {
    hide Split, Join, Joinable, Unnamed, OpOf, Count;
    Suffixes(suffix);
    ParseJoined(items);
  }

  /** The suffix for deletion takes the numbers of places. */
  lemma SuffixDeletes(l: seq<string>, k: nat)
    requires k < |l| <= N.LONG_MAX
    ensures Stored(OpOf(true, "-del"), Just(N.Decimal(k)), Nothing, Nothing, l) == l[..k] + l[k + 1..]
  {
    hide Split, Unnamed, OpOf, Count, Joinable;
    var d := N.Decimal(k);
    Suffixes("");
    DigitsOnly(k);
    JoinableOne(d);
    hide N.Decimal;
    PrintExactly([d]);
    forall i: nat | i < |l| ensures Named([d], i) <==> i == k {
      NamesPlace(k, i);
      assert [d][0] == d;
    }
    UnnamedOne(l, [d], k, 0);
    assert l[0..k] == l[..k];
  }

  lemma JoinableOne(s: string)
    ensures Joinable([s])
  {
  }

  lemma {:induction false} DigitsOnly(n: nat)
    ensures ',' !in N.Decimal(n)
  {
    if n >= 10 { DigitsOnly(n / 10); }
  }

  lemma {:induction false} UnnamedOne(l: seq<string>, texts: seq<string>, k: nat, i: nat)
    requires i <= |l| && k < |l| && forall j: nat :: j < |l| ==> (Named(texts, j) <==> j == k)
    ensures Unnamed(l, texts, i) == if i <= k then l[i..k] + l[k + 1..] else l[i..]
    decreases |l| - i
  {
    hide Named;
    if i < |l| {
      UnnamedOne(l, texts, k, i + 1);
      assert l[i..] == [l[i]] + l[i + 1..];
      assert i < k ==> l[i..k] == [l[i]] + l[i + 1..k];
    }
  }

  /**
   * Parses a value for the list variable `dst`, which changes only if `store` holds. `suffix` is what
   * the given name has behind the name of a wildcard option.
   */
  method ParseStrList(wildcard: bool, suffix: string, param: Maybe<string>, min: Maybe<int>, max: Maybe<int>,
      store: bool, dst: array?<Maybe<string>>, ghost l: seq<string>) returns (a: Answer, r: array?<Maybe<string>>)
    requires IsList(dst, l) && (param.Just? ==> '\0' !in param.value)
    modifies dst
    ensures a == Answered(OpOf(wildcard, suffix), param, min, max)
    ensures IsList(r, if store then Stored(OpOf(wildcard, suffix), param, min, max, l) else l)
  {
    hide Split, Count, Unnamed, OpOf;
    var op := OpOf(wildcard, suffix);
    if op.Nothing? {
      return Refused(UnknownName), dst;
    }
    if op.value.Clear? {
      return Cleared, if store then null else dst;
    }
    if param.Nothing? {
      return Refused(MissingParam), dst;
    }
    var error, res := ParseItems(param.value, min, max, store);
    if error.Just? {
      return Refused(error.value), dst;
    }
    a := Accepted;
    if !store {
      return a, dst;
    }
    ghost var items := Split(param.value);
    if op.value == Delete {
      r := StrListDel(dst, res, l, items);
    } else if op.value == SetList {
      r := res;
    } else {
      var n := Length(res, items);
      var longer := StrListAdd(dst, res, n, op.value == Prepend, l, items);
      r := longer;
    }
  }
}
