/** Property expansion in text templates (m_property.c). */
module Template {
  import opened Basics
  import opened Numbers

  /** What the property list answers: can a property be read, and what does it print. */
  datatype Properties = Properties(available: string -> bool, shown: string -> Maybe<string>)

  /** The language: letters, `${name}`, `?(name:body)` and `?(!name:body)`. */
  datatype Item = Letter(c: char) | Value(name: string) | When(negated: bool, name: string, body: seq<Item>)

  /** The meaning of a template. */
  function Eval(items: seq<Item>, env: Properties): string {
    if items == [] then "" else EvalItem(items[0], env) + Eval(items[1..], env)
  }

  function EvalItem(item: Item, env: Properties): string {
    match item
    case Letter(c) => [c]
    case Value(name) => Printed(name, env)
    case When(negated, name, body) => if env.available(name) != negated then Eval(body, env) else ""
  }

  function Printed(name: string, env: Properties): string {
    match env.shown(name) case Just(v) => v case Nothing => ""
  }

  /** The place of the first `c`. */
  function Find(s: string, c: char): (r: Maybe<nat>)
    ensures r.Just? ==> r.value < |s| && s[r.value] == c && c !in s[..r.value]
    ensures r.Nothing? ==> c !in s
  {
    if s == "" then Nothing
    else if s[0] == c then Just(0)
    else match Find(s[1..], c) case Nothing => Nothing case Just(k) => Just(k + 1)
  }

  function Byte(n: int): char { (n % 256) as char }

  /** What `strtol` in base 16 makes of at most two characters: a byte and how many it used. */
  function Hex(s: string): (r: (char, nat))
    requires s != ""
    ensures r.1 <= |s|
  {
    var a, b := Digit(s[0]), if |s| > 1 then Digit(s[1]) else 36;
    if a < 16 then if b < 16 then (Byte(16 * a + b), 2) else (Byte(a), 1)
    else if b >= 16 then (Byte(0), 0)
    else if IsSpace(s[0]) || s[0] == '+' then (Byte(b), 2)
    else if s[0] == '-' then (Byte(256 - b), 2)
    else (Byte(0), 0)
  }

  /** One step of the scanner; `Silence` is an escape that stands for nothing. */
  datatype Token = Char(c: char) | Silence | Close | Name(name: string) | Open(negated: bool, name: string)

  /** The escape whose backslash precedes `s`, and how much of `s` it uses. */
  function Escape(s: string): (r: (Token, nat))
    requires s != ""
    ensures r.1 <= |s|
  {
    match s[0]
    case 'e' => (Char(0x1b as char), 1)
    case 'n' => (Char('\n'), 1)
    case 'r' => (Char('\r'), 1)
    case 't' => (Char('\t'), 1)
    case 'x' =>
      if |s| == 1 then (Silence, 1)
      else var h := Hex(if |s| > 2 then s[1..3] else s[1..]); (Char(h.0), h.1)
    case c => (Char(c), 1)
  }

  /** The first token of `s` and its length; a closing parenthesis counts only inside a condition. */
  function Lex(s: string, inside: bool): (r: (Token, nat))
    requires s != "" && s != "\\"
    ensures 0 < r.1 <= |s|
    ensures r.0.Close? ==> inside
  {
    if s[0] == '\\' then var e := Escape(s[1..]); (e.0, 1 + e.1)
    else if inside && s[0] == ')' then (Close, 1)
    else if s[0] == '$' && |s| > 1 && s[1] == '{' && Find(s[2..], '}').Just? then
      var e := Find(s[2..], '}').value;
      (Name(s[2..2 + e]), e + 3)
    else if s[0] == '?' && |s| > 1 && s[1] == '(' && Find(s[2..], ':').Just? then
      var e := Find(s[2..], ':').value;
      var negated := s[2] == '!';
      (Open(negated, s[if negated then 3 else 2..2 + e]), e + 3)
    else (Char(s[0]), 1)
  }

  /** Items up to the parenthesis that closes them, and what follows it. */
  datatype Parsed = Parsed(items: seq<Item>, rest: Maybe<string>)

  function Prepend(i: Item, p: Parsed): Parsed { p.(items := [i] + p.items) }

  /** The recursive reading of a template. A lone backslash at its end is no part of the language. */
  function Items(s: string, inside: bool): (p: Parsed)
    ensures p.rest.Just? ==> inside && |p.rest.value| < |s|
    decreases |s|
  {
    if s == "" || s == "\\" then Parsed([], Nothing)
    else
      var (t, n) := Lex(s, inside);
      match t
      case Close => Parsed([], Just(s[n..]))
      case Silence => Items(s[n..], inside)
      case Char(c) => Prepend(Letter(c), Items(s[n..], inside))
      case Name(name) => Prepend(Value(name), Items(s[n..], inside))
      case Open(negated, name) =>
        var b := Items(s[n..], true);
        match b.rest
        case Nothing => Parsed([When(negated, name, b.items)], Nothing)
        case Just(r) => Prepend(When(negated, name, b.items), Items(r, inside))
  }

  /** Does scanning arrive at a lone backslash at the end? */
  predicate Overruns(s: string, lvl: nat)
    decreases |s|
  {
    s != "" &&
    (s == "\\" ||
     var (t, n) := Lex(s, lvl > 0);
     Overruns(s[n..], if t.Open? then lvl + 1 else if t.Close? then lvl - 1 else lvl))
  }

  /** The scan's counters: the level, and the level of the condition that failed. */
  datatype Mode = Mode(lvl: nat, skip: Maybe<nat>)

  /** What a token does to the counters, and what it writes. */
  function Step(t: Token, m: Mode, env: Properties): (Mode, string)
    requires t.Close? ==> m.lvl > 0
  {
    match t
    case Close => (Mode(m.lvl - 1, if m.skip.Just? && m.lvl <= m.skip.value then Nothing else m.skip), "")
    case Silence => (m, "")
    case Char(c) => (m, if m.skip.Just? then "" else [c])
    case Name(name) => (m, if m.skip.Just? then "" else Printed(name, env))
    case Open(negated, name) =>
      (Mode(m.lvl + 1, if m.skip.Nothing? && env.available(name) == negated then Just(m.lvl + 1) else m.skip), "")
  }

  /** What the flat scan writes from a point on. */
  function Scan(s: string, m: Mode, env: Properties): string
    decreases |s|
  {
    if s == "" || s == "\\" then ""
    else
      var (t, n) := Lex(s, m.lvl > 0);
      var (next, p) := Step(t, m, env);
      p + Scan(s[n..], next, env)
  }

  /** A failed condition suppresses everything, at any depth, up to its own closing parenthesis. */
  lemma {:induction false} SkippedUntilClosed(s: string, lvl: nat, k: nat, env: Properties)
    requires 0 < k <= lvl
    ensures Scan(s, Mode(lvl, Just(k)), env) == match Items(s, true).rest
      case Nothing => ""
      case Just(r) => Scan(r, Mode(lvl - 1, if lvl == k then Nothing else Just(k)), env)
    decreases |s|
  {
    hide Lex;
    if s != "" && s != "\\" {
      var (t, n) := Lex(s, true);
      match t
      case Close =>
      case Silence => SkippedUntilClosed(s[n..], lvl, k, env);
      case Char(c) => SkippedUntilClosed(s[n..], lvl, k, env);
      case Name(name) => SkippedUntilClosed(s[n..], lvl, k, env);
      case Open(negated, name) => SkippedWhen(s, n, negated, name, lvl, k, env);
    }
  }

  lemma {:induction false} SkippedWhen(s: string, n: nat, negated: bool, name: string, lvl: nat, k: nat,
      env: Properties)
    requires 0 < k <= lvl
    requires s != "" && s != "\\" && Lex(s, lvl > 0) == (Open(negated, name), n)
    ensures Scan(s, Mode(lvl, Just(k)), env) == match Items(s, true).rest
      case Nothing => ""
      case Just(r) => Scan(r, Mode(lvl - 1, if lvl == k then Nothing else Just(k)), env)
    decreases |s|, 0
  {
    hide Lex, Scan, Items;
    ScanOpen(s, n, negated, name, lvl, Just(k), env);
    ItemsOpen(s, n, negated, name, true);
    SkippedUntilClosed(s[n..], lvl + 1, k, env);
    match Items(s[n..], true).rest
    case Nothing =>
    case Just(r) => SkippedUntilClosed(r, lvl, k, env);
  }

  lemma EvalPrepend(i: Item, items: seq<Item>, env: Properties)
    ensures Eval([i] + items, env) == EvalItem(i, env) + Eval(items, env)
  {
    assert ([i] + items)[1..] == items;
  }

  lemma EvalOne(i: Item, env: Properties)
    ensures Eval([i], env) == EvalItem(i, env)
  {
    EvalPrepend(i, [], env);
    assert [i] + [] == [i];
  }

  /** What a parsed part of a template writes, and then what is behind it. */
  function Written(p: Parsed, lvl: nat, env: Properties): string
    requires p.rest.Just? ==> lvl > 0
  {
    Eval(p.items, env) + match p.rest case Nothing => "" case Just(r) => Scan(r, Mode(lvl - 1, Nothing), env)
  }

  lemma WrittenPrepend(i: Item, p: Parsed, lvl: nat, env: Properties)
    requires p.rest.Just? ==> lvl > 0
    ensures Written(Prepend(i, p), lvl, env) == EvalItem(i, env) + Written(p, lvl, env)
  {
    EvalPrepend(i, p.items, env);
  }

  /** The flat scan writes the meaning of what the recursive reading finds. */
  lemma {:induction false} ScanIsEval(s: string, lvl: nat, env: Properties)
    ensures Scan(s, Mode(lvl, Nothing), env) == Written(Items(s, lvl > 0), lvl, env)
    decreases |s|
  {
    hide Lex;
    if s != "" && s != "\\" {
      var (t, n) := Lex(s, lvl > 0);
      match t
      case Close =>
      case Silence => ScanIsEval(s[n..], lvl, env);
      case Char(c) =>
        ScanIsEval(s[n..], lvl, env);
        WrittenPrepend(Letter(c), Items(s[n..], lvl > 0), lvl, env);
      case Name(name) =>
        ScanIsEval(s[n..], lvl, env);
        WrittenPrepend(Value(name), Items(s[n..], lvl > 0), lvl, env);
      case Open(negated, name) => ScanIsEvalWhen(s, n, negated, name, lvl, env);
    }
  }

  lemma ScanOpen(s: string, n: nat, negated: bool, name: string, lvl: nat, skip: Maybe<nat>, env: Properties)
    requires s != "" && s != "\\" && Lex(s, lvl > 0) == (Open(negated, name), n)
    ensures Scan(s, Mode(lvl, skip), env) == Scan(s[n..],
      Mode(lvl + 1, if skip.Nothing? && env.available(name) == negated then Just(lvl + 1) else skip), env)
  {
    hide Lex;
  }

  lemma ItemsOpen(s: string, n: nat, negated: bool, name: string, inside: bool)
    requires s != "" && s != "\\" && Lex(s, inside) == (Open(negated, name), n)
    ensures var b := Items(s[n..], true);
      Items(s, inside) == match b.rest
        case Nothing => Parsed([When(negated, name, b.items)], Nothing)
        case Just(r) => Prepend(When(negated, name, b.items), Items(r, inside))
  {
    hide Lex;
  }

  lemma {:induction false} ScanIsEvalWhen(s: string, n: nat, negated: bool, name: string, lvl: nat, env: Properties)
    requires s != "" && s != "\\" && Lex(s, lvl > 0) == (Open(negated, name), n)
    ensures Scan(s, Mode(lvl, Nothing), env) == Written(Items(s, lvl > 0), lvl, env)
    decreases |s|, 0
  {
    hide Lex, Scan, Items, Eval;
    var b := Items(s[n..], true);
    ScanOpen(s, n, negated, name, lvl, Nothing, env);
    ItemsOpen(s, n, negated, name, lvl > 0);
    var i := When(negated, name, b.items);
    if env.available(name) == negated {
      SkippedUntilClosed(s[n..], lvl + 1, lvl + 1, env);
    } else {
      ScanIsEval(s[n..], lvl + 1, env);
    }
    match b.rest
    case Nothing =>
      EvalOne(i, env);
    case Just(r) =>
      ScanIsEval(r, lvl, env);
      WrittenPrepend(i, Items(r, lvl > 0), lvl, env);
  }

  /** What a template expands to. */
  function Expansion(s: string, env: Properties): string { Eval(Items(s, false).items, env) }

  /** A template that does not end in a backslash never makes the scan overrun. */
  lemma {:induction false} NoOverrun(s: string, lvl: nat)
    requires s == "" || s[|s| - 1] != '\\'
    ensures !Overruns(s, lvl)
    decreases |s|
  {
    hide Lex;
    if s != "" {
      var (t, n) := Lex(s, lvl > 0);
      NoOverrun(s[n..], if t.Open? then lvl + 1 else if t.Close? then lvl - 1 else lvl);
    }
  }

  predicate Special(c: char) { c in ['\\', ')', '$', '?'] }

  /** A template that says `items`. */
  function Render(items: seq<Item>): string {
    if items == [] then "" else RenderItem(items[0]) + Render(items[1..])
  }

  function RenderItem(item: Item): string {
    match item
    case Letter(c) => if Special(c) then ['\\', c] else [c]
    case Value(name) => "${" + name + "}"
    case When(negated, name, body) => "?(" + (if negated then "!" else "") + name + ":" + Render(body) + ")"
  }

  /** Names end at the first `}` or `:`, and an initial `!` negates. */
  predicate Named(items: seq<Item>) {
    forall i :: 0 <= i < |items| ==> NamedItem(items[i])
  }

  predicate NamedItem(item: Item) {
    match item
    case Letter(c) => true
    case Value(name) => '}' !in name
    case When(negated, name, body) => ':' !in name && (negated || name == "" || name[0] != '!') && Named(body)
  }

  lemma {:induction false} FindBehind(name: string, c: char, tail: string)
    requires c !in name
    ensures Find(name + [c] + tail, c) == Just(|name|)
  {
    if name == "" {
      assert "" + [c] + tail == [c] + tail;
    } else {
      assert (name + [c] + tail)[1..] == name[1..] + [c] + tail;
      FindBehind(name[1..], c, tail);
    }
  }

  lemma LexLetter(c: char, tail: string, inside: bool)
    ensures var head := RenderItem(Letter(c));
      (head + tail != "\\" && Lex(head + tail, inside) == (Char(c), |head|))
  {
    var s := RenderItem(Letter(c)) + tail;
    if Special(c) {
      assert s[1..] == [c] + tail;
    } else {
      assert s[0] == c;
    }
  }

  lemma LexClose(tail: string)
    ensures ")" + tail != "\\" && Lex(")" + tail, true) == (Close, 1) && (")" + tail)[1..] == tail
  {
    assert (")" + tail)[0] == ')';
  }

  lemma ItemsClose(tail: string)
    ensures Items(")" + tail, true) == Parsed([], Just(tail))
  {
    hide Lex;
    LexClose(tail);
  }

  lemma OverrunsClose(tail: string, lvl: nat)
    ensures Overruns(")" + tail, lvl + 1) == Overruns(tail, lvl)
  {
    hide Lex;
    LexClose(tail);
  }

  lemma LexName(name: string, tail: string, inside: bool)
    requires '}' !in name
    ensures Lex("${" + name + "}" + tail, inside) == (Name(name), |name| + 3)
  {
    var s := "${" + name + "}" + tail;
    assert s[2..] == name + ['}'] + tail;
    FindBehind(name, '}', tail);
    assert s[2..2 + |name|] == name;
  }

  lemma LexOpen(negated: bool, name: string, tail: string, inside: bool)
    requires ':' !in name && (negated || name == "" || name[0] != '!')
    ensures var head := "?(" + (if negated then "!" else "") + name + ":";
      Lex(head + tail, inside) == (Open(negated, name), |head|)
  {
    hide Find;
    var full := (if negated then "!" else "") + name;
    var s := "?(" + (full + [':'] + tail);
    assert s == "?(" + (if negated then "!" else "") + name + ":" + tail;
    assert s[2..] == full + [':'] + tail;
    FindBehind(full, ':', tail);
    CutName(full, tail);
    if negated {
      assert full[1..] == name;
    } else {
      assert full == name;
    }
  }

  lemma CutName(full: string, tail: string)
    ensures var s := "?(" + (full + [':'] + tail);
      (s[2] == (full + [':'])[0] && s[2..2 + |full|] == full && (full != "" ==> s[3..2 + |full|] == full[1..]))
  {
  }

  /** Reading what was rendered gives the items back, and goes on with what follows. */
  lemma {:induction false} ItemsRender(items: seq<Item>, tail: string, inside: bool)
    requires Named(items)
    ensures var p := Items(tail, inside); Items(Render(items) + tail, inside) == p.(items := items + p.items)
    decreases items
  {
    hide RenderItem, NamedItem, Items;
    var p := Items(tail, inside);
    if items == [] {
      assert Render(items) + tail == tail && items + p.items == p.items;
    } else {
      ItemsRender(items[1..], tail, inside);
      var behind := Render(items[1..]) + tail;
      assert Render(items) + tail == RenderItem(items[0]) + behind;
      ItemRender(items[0], behind, inside);
      assert [items[0]] + (items[1..] + p.items) == items + p.items;
    }
  }

  lemma {:induction false} ItemRender(item: Item, tail: string, inside: bool)
    requires NamedItem(item)
    ensures Items(RenderItem(item) + tail, inside) == Prepend(item, Items(tail, inside))
    decreases item
  {
    hide Lex, Special;
    var s := RenderItem(item) + tail;
    match item
    case Letter(c) =>
      LexLetter(c, tail, inside);
      assert s[|RenderItem(item)|..] == tail;
    case Value(name) =>
      LexName(name, tail, inside);
      assert s[|name| + 3..] == tail;
    case When(negated, name, body) =>
      var head := "?(" + (if negated then "!" else "") + name + ":";
      var rest := Render(body) + (")" + tail);
      assert s == head + rest;
      LexOpen(negated, name, rest, inside);
      assert s[|head|..] == rest;
      ItemsRender(body, ")" + tail, true);
      ItemsClose(tail);
      assert body + [] == body;
  }

  /** Expanding a rendered tree gives the value of the tree. */
  lemma ExpandRendered(items: seq<Item>, env: Properties)
    requires Named(items)
    ensures Expansion(Render(items), env) == Eval(items, env)
  {
    ItemsRender(items, "", false);
    assert Render(items) + "" == Render(items) && items + [] == items;
  }

  /** Rendered text never makes the scan overrun, and what follows does only if it does by itself. */
  lemma {:induction false} RenderNeverOverruns(items: seq<Item>, tail: string, lvl: nat)
    requires Named(items)
    ensures Overruns(Render(items) + tail, lvl) == Overruns(tail, lvl)
    decreases items
  {
    hide RenderItem, NamedItem, Overruns;
    if items == [] {
      assert Render(items) + tail == tail;
    } else {
      var behind := Render(items[1..]) + tail;
      assert Render(items) + tail == RenderItem(items[0]) + behind;
      RenderNeverOverruns(items[1..], tail, lvl);
      ItemNeverOverruns(items[0], behind, lvl);
    }
  }

  lemma {:induction false} ItemNeverOverruns(item: Item, tail: string, lvl: nat)
    requires NamedItem(item)
    ensures Overruns(RenderItem(item) + tail, lvl) == Overruns(tail, lvl)
    decreases item
  {
    hide Lex, Special;
    var s := RenderItem(item) + tail;
    match item
    case Letter(c) =>
      LexLetter(c, tail, lvl > 0);
      assert s[|RenderItem(item)|..] == tail;
    case Value(name) =>
      LexName(name, tail, lvl > 0);
      assert s[|name| + 3..] == tail;
    case When(negated, name, body) =>
      var head := "?(" + (if negated then "!" else "") + name + ":";
      var rest := Render(body) + (")" + tail);
      assert s == head + rest;
      LexOpen(negated, name, rest, lvl > 0);
      assert s[|head|..] == rest;
      RenderNeverOverruns(body, ")" + tail, lvl + 1);
      OverrunsClose(tail, lvl);
  }

  predicate IsHex(c: char) { Digit(c) < 16 }

  /**
   * The scan moves on by the number of hexadecimal digits, although the `x` is to be passed too:
   * the second digit of `\\xHH` is written again as a letter.
   */
  lemma SecondDigitRemains(a: char, b: char, tail: string, inside: bool)
    requires IsHex(a) && IsHex(b)
    ensures Items(['\\', 'x', a, b] + tail, inside) == Prepend(
      Letter(Byte(16 * Digit(a) + Digit(b))), Prepend(Letter(b), Items(tail, inside)))
  {
    hide Lex, IsHex;
    var s := ['\\', 'x', a, b] + tail;
    LexHex(a, b, tail, inside);
    assert s[3..] == [b] + tail;
    LetterRemains(b, tail, inside);
  }

  /** The only digit of `\\xH` is written again as well. */
  lemma OnlyDigitRemains(a: char, tail: string, inside: bool)
    requires IsHex(a) && (tail == "" || !IsHex(tail[0]))
    ensures Items(['\\', 'x', a] + tail, inside) == Prepend(
      Letter(Byte(Digit(a))), Prepend(Letter(a), Items(tail, inside)))
  {
    hide Lex, IsHex;
    var s := ['\\', 'x', a] + tail;
    LexOneHex(a, tail, inside);
    assert s[2..] == [a] + tail;
    LetterRemains(a, tail, inside);
  }

  lemma LetterRemains(c: char, tail: string, inside: bool)
    requires IsHex(c)
    ensures Items([c] + tail, inside) == Prepend(Letter(c), Items(tail, inside))
  {
    hide Lex;
    assert RenderItem(Letter(c)) == [c];
    LexLetter(c, tail, inside);
    assert ([c] + tail)[1..] == tail;
  }

  lemma LexHex(a: char, b: char, tail: string, inside: bool)
    requires IsHex(a) && IsHex(b)
    ensures Lex(['\\', 'x', a, b] + tail, inside) == (Char(Byte(16 * Digit(a) + Digit(b))), 3)
  {
    hide Digit;
    var s := ['\\', 'x', a, b] + tail;
    assert s[1..] == ['x', a, b] + tail;
    assert s[1..][1..3] == [a, b];
  }

  lemma LexOneHex(a: char, tail: string, inside: bool)
    requires IsHex(a) && (tail == "" || !IsHex(tail[0]))
    ensures Lex(['\\', 'x', a] + tail, inside) == (Char(Byte(Digit(a))), 2)
  {
    hide Digit;
    var s := ['\\', 'x', a] + tail;
    assert s[1..] == ['x', a] + tail;
    if tail == "" {
      assert s[1..][1..] == [a];
    } else {
      assert s[1..][1..3] == [a, tail[0]];
    }
  }

  /** The text buffer: `pos` characters written and always room for the terminator. */
  class Buffer {
    var ret: array<char>
    var pos: nat

    constructor (size: nat)
      requires size > 0
      ensures Valid() && Text() == "" && fresh(ret)
    {
      ret, pos := new char[size], 0;
    }

    ghost predicate Valid()
      reads this
    {
      pos < ret.Length
    }

    ghost function Text(): string
      requires Valid()
      reads this, ret
    {
      ret[..pos]
    }

    /** Appends `p`, in a larger buffer if it does not fit. */
    method Append(p: string)
      requires Valid()
      modifies this, ret
      ensures Valid() && Text() == old(Text()) + p
      ensures ret == old(ret) || fresh(ret)
    {
      var l := |p|;
      if pos + l + 1 > ret.Length {
        var larger := new char[pos + l + 512];
        forall i | 0 <= i < pos {
          larger[i] := ret[i];
        }
        assert larger[..pos] == ret[..pos];
        ret := larger;
      }
      ghost var before := ret[..pos];
      forall i | 0 <= i < l {
        ret[pos + i] := p[i];
      }
      assert ret[..pos] == before && ret[pos..pos + l] == p;
      assert ret[..pos + l] == ret[..pos] + ret[pos..pos + l];
      pos := pos + l;
    }

    method Terminate()
      requires Valid()
      modifies ret
      ensures Valid() && Text() == old(Text()) && ret[pos] == 0 as char
    {
      ret[pos] := 0 as char;
    }
  }

  lemma ScanStep(s: string, m: Mode, env: Properties)
    requires s != "" && !Overruns(s, m.lvl)
    ensures s != "\\"
    ensures var (t, n) := Lex(s, m.lvl > 0); var (next, p) := Step(t, m, env);
      (Scan(s, m, env) == p + Scan(s[n..], next, env) && !Overruns(s[n..], next.lvl))
  {
    hide Lex;
  }

  function Counters(lvl: nat, skip: bool, skipLvl: nat): Mode {
    Mode(lvl, if skip then Just(skipLvl) else Nothing)
  }

  /** The expansion loop, with its three counters. */
  method ExpandString(template: string, env: Properties) returns (b: Buffer)
    requires !Overruns(template, 0)
    ensures fresh(b) && fresh(b.ret) && b.Valid()
    ensures b.Text() == Expansion(template, env) && b.ret[b.pos] == 0 as char
  {
    hide Lex, Expansion, Scan, Overruns;
    b := new Buffer(|template| + 512);
    var str := template;
    var skip := false;
    var lvl: nat, skipLvl: nat := 0, 0;
    while str != ""
      invariant !Overruns(str, lvl)
      invariant fresh(b) && fresh(b.ret) && b.Valid()
      invariant b.Text() + Scan(str, Counters(lvl, skip, skipLvl), env) == Scan(template, Mode(0, Nothing), env)
      decreases |str|
    {
      ScanStep(str, Counters(lvl, skip, skipLvl), env);
      var (t, n) := Lex(str, lvl > 0);
      ghost var (next, q) := Step(t, Counters(lvl, skip, skipLvl), env);
      var p := "";
      match t {
        case Char(c) => p := [c];
        case Silence =>
        case Close =>
          if skip && lvl <= skipLvl {
            skip := false;
          }
          lvl := lvl - 1;
        case Name(name) =>
          p := Printed(name, env);
        case Open(negated, name) =>
          lvl := lvl + 1;
          if !skip {
            if !env.available(name) {
              if !negated {
                skip, skipLvl := true, lvl;
              }
            } else if negated {
              skip, skipLvl := true, lvl;
            }
          }
      }
      assert next == Counters(lvl, skip, skipLvl) && q == if skip then "" else p;
      str := str[n..];
      ghost var rest := Scan(str, next, env);
      assert b.Text() + (q + rest) == b.Text() + q + rest;
      if skip || |p| <= 0 {
        assert b.Text() + q == b.Text();
        continue;
      }
      b.Append(p);
    }
    b.Terminate();
    ScanEmpty(Counters(lvl, skip, skipLvl), env);
    ScanIsExpansion(template, env);
  }

  lemma ScanEmpty(m: Mode, env: Properties)
    ensures Scan("", m, env) == ""
  {
  }

  lemma ScanIsExpansion(s: string, env: Properties)
    ensures Scan(s, Mode(0, Nothing), env) == Expansion(s, env)
  {
    ScanIsEval(s, 0, env);
  }

  /** What the letter behind a backslash stands for. */
  function Meaning(c: char): char {
    match c
    case 'n' => 10 as char
    case 'r' => 13 as char
    case 't' => 9 as char
    case 'e' => 27 as char
    case _ => c
  }

  /** A backslash and a letter: line feed, return, tab, escape, or the letter itself, with no other meaning left. */
  lemma EscapedLetter(c: char, tail: string, inside: bool)
    requires c != 'x'
    ensures Items(['\\', c] + tail, inside) == Prepend(Letter(Meaning(c)), Items(tail, inside))
  {
    var s := ['\\', c] + tail;
    assert s[1..] == [c] + tail && s[2..] == tail;
    assert Lex(s, inside) == (Char(Meaning(c)), 2);
  }

  /** So it expands to that one character. */
  lemma EscapedExpands(c: char, tail: string, env: Properties)
    requires c != 'x'
    ensures Expansion(['\\', c] + tail, env) == [Meaning(c)] + Expansion(tail, env)
  {
    EscapedLetter(c, tail, false);
    hide Items, Meaning;
    EvalLetter(Meaning(c), Items(tail, false).items, env);
  }

  lemma EvalLetter(c: char, items: seq<Item>, env: Properties)
    ensures Eval([Letter(c)] + items, env) == [c] + Eval(items, env)
  {
    assert ([Letter(c)] + items)[1..] == items;
  }

  /** `?(name:...)` says what is inside exactly if the property is available, `?(!name:...)` if it is not. */
  lemma ConditionExpands(negated: bool, name: string, body: seq<Item>, env: Properties)
    requires Named([When(negated, name, body)])
    ensures Expansion("?(" + (if negated then "!" else "") + name + ":" + Render(body) + ")", env) ==
      if negated == env.available(name) then "" else Eval(body, env)
  {
    var item := When(negated, name, body);
    ExpandRendered([item], env);
    EvalOne(item, env);
    hide Expansion, Named;
    assert Render([item]) == RenderItem(item) + Render([]);
    assert RenderItem(item) + "" == RenderItem(item);
    assert RenderItem(item) == "?(" + (if negated then "!" else "") + name + ":" + Render(body) + ")";
  }
}
