/** Sub-options in one value, `name=value:name:...` (m_option.c). */
module SubConfig {
  import opened Basics
  import opened Numbers

  /** A sub-option as it is stored; no value and an empty value are the same. */
  datatype Sub = Sub(name: string, value: Maybe<string>)

  datatype Error = MissingParam | Invalid | Unknown | Rejected

  datatype Result = Parsed(subs: seq<Sub>) | Failed(error: Error)

  /** The known sub-options, and which values their own parsers take. */
  datatype Options = Options(known: string -> bool, takes: Sub -> bool)

  /** The length of the part of `s` before the first of `stop`. */
  function Span(s: string, stop: set<char>): (n: nat)
    ensures n <= |s|
    ensures forall i :: 0 <= i < n ==> s[i] !in stop
    ensures n < |s| ==> s[n] in stop
  {
    if s == "" || s[0] in stop then 0 else 1 + Span(s[1..], stop)
  }

  /** A value and what follows it. */
  datatype Taken = Taken(value: string, rest: string) | Bad

  /** The value behind an equals sign: quoted, with its length given, or up to the next colon. */
  function TakeValue(p: string): (r: Taken)
    ensures r.Taken? ==> |r.rest| <= |p|
  {
    if p != "" && p[0] == '"' then
      var n := Span(p[1..], {'"'});
      if n == |p| - 1 then Bad else Taken(p[1..1 + n], p[n + 2..])
    else if p != "" && p[0] == '%' then
      var (len, q) := Number(p[1..]);
      if q == "" || q[0] != '%' || len < 0 || len > |q| - 1 then Bad
      else Taken(q[1..1 + len], q[1 + len..])
    else
      var n := Span(p, {':'});
      Taken(p[..n], p[n..])
  }

  /** One sub-option and what follows its colon. */
  datatype Step = Step(sub: Sub, rest: string) | Wrong(error: Error)

  function AsValue(s: string): Maybe<string> { if s == "" then Nothing else Just(s) }

  function TakeSub(p: string, options: Options): (r: Step)
    requires p != ""
    ensures r.Step? ==> |r.rest| < |p|
  {
    var n := Span(p, {':', '='});
    var name := p[..n];
    var v := if n < |p| && p[n] == '=' then TakeValue(p[n + 1..]) else Taken("", p[n..]);
    match v
    case Bad => Wrong(Invalid)
    case Taken(value, rest) =>
      if rest != "" && rest[0] != ':' then Wrong(Invalid)
      else
        var sub := Sub(name, AsValue(value));
        if !options.known(name) then Wrong(Unknown)
        else if !options.takes(sub) then Wrong(Rejected)
        else Step(sub, if rest == "" then "" else rest[1..])
  }

  /** The sub-options of a text; the first error decides. */
  function TakeAll(p: string, options: Options): Result
    decreases |p|
  {
    if p == "" then Parsed([])
    else match TakeSub(p, options)
      case Wrong(e) => Failed(e)
      case Step(sub, rest) => Before(sub, TakeAll(rest, options))
  }

  function Before(sub: Sub, r: Result): Result {
    match r case Parsed(subs) => Parsed([sub] + subs) case Failed(e) => r
  }

  function Parse(param: string, options: Options): Result {
    if param == "" then Failed(MissingParam) else TakeAll(param, options)
  }

  /** How a value is written: as it is, in quotes, or behind its length. */
  datatype Form = Plain | Quoted | Counted

  function RenderValue(v: string, form: Form): string {
    match form
    case Plain => v
    case Quoted => "\"" + v + "\""
    case Counted => "%" + Decimal(|v|) + "%" + v
  }

  function RenderSub(s: Sub, form: Form): string {
    match s.value
    case Nothing => s.name
    case Just(v) => s.name + "=" + RenderValue(v, form)
  }

  function Render(subs: seq<Sub>, forms: seq<Form>): string
    requires |forms| == |subs|
  {
    if subs == [] then "" else if |subs| == 1 then RenderSub(subs[0], forms[0])
    else RenderSub(subs[0], forms[0]) + ":" + Render(subs[1..], forms[1..])
  }

  /** Values that can be written in a form. */
  predicate Fits(v: string, form: Form) {
    match form
    case Plain => ':' !in v && (v == "" || v[0] !in {'"', '%'})
    case Quoted => '"' !in v
    case Counted => |v| <= INT_MAX
  }

  predicate SubFits(s: Sub, form: Form) { s.value.Just? ==> Fits(s.value.value, form) }

  predicate AllFit(subs: seq<Sub>, forms: seq<Form>)
    requires |forms| == |subs|
  {
    forall i :: 0 <= i < |subs| ==> SubFits(subs[i], forms[i])
  }

  /** What any parsed sub-option is like. */
  predicate Clean(s: Sub, options: Options) {
    ':' !in s.name && '=' !in s.name && s.value != Just("") && options.known(s.name) && options.takes(s)
  }

  predicate AllClean(subs: seq<Sub>, options: Options) {
    forall i :: 0 <= i < |subs| ==> Clean(subs[i], options)
  }

  lemma SpanClean(s: string, stop: set<char>)
    ensures forall c :: c in stop ==> c !in s[..Span(s, stop)]
  {
  }

  /** Whatever is parsed is clean. */
  lemma {:induction false} ParsedClean(p: string, options: Options)
    requires TakeAll(p, options).Parsed?
    ensures AllClean(TakeAll(p, options).subs, options)
    decreases |p|
  {
    hide TakeValue;
    if p != "" {
      SpanClean(p, {':', '='});
      ParsedClean(TakeSub(p, options).rest, options);
    }
  }

  lemma TakeRenderedValue(v: string, tail: string)
    requires v != "" && |v| <= INT_MAX
    ensures TakeValue("%" + Decimal(|v|) + "%" + v + tail) == Taken(v, tail)
  {
    hide Decimal, Number, TakeValue;
    var q := "%" + (v + tail);
    var p := "%" + Decimal(|v|) + "%" + v + tail;
    Regroup(Decimal(|v|), v, tail);
    NumberOfDecimal(|v|, q);
    CutLength(v, tail);
    TakeCounted(p, |v|, q);
  }

  lemma TakeCounted(p: string, len: nat, q: string)
    requires p != "" && p[0] == '%' && Number(p[1..]) == (len, q)
    requires q != "" && q[0] == '%' && len <= |q| - 1
    ensures TakeValue(p) == Taken(q[1..1 + len], q[1 + len..])
  {
    hide Number, Span;
  }

  lemma Regroup(d: string, v: string, tail: string)
    ensures ("%" + d + "%" + v + tail)[0] == '%'
    ensures ("%" + d + "%" + v + tail)[1..] == d + ("%" + (v + tail))
  {
  }

  lemma CutLength(v: string, tail: string)
    ensures var q := "%" + (v + tail); (q[1..1 + |v|] == v && q[1 + |v|..] == tail && |q| - 1 >= |v|)
  {
  }

  lemma {:induction false} SpanIs(a: string, b: string, stop: set<char>)
    requires forall c :: c in a ==> c !in stop
    requires b != "" ==> b[0] in stop
    ensures Span(a + b, stop) == |a|
  {
    if a == "" {
      assert a + b == b;
    } else {
      assert (a + b)[1..] == a[1..] + b;
      assert a[0] in a && forall c :: c in a[1..] ==> c in a;
      SpanIs(a[1..], b, stop);
    }
  }

  /** What a value ends at when it is not the last. */
  predicate Ended(tail: string) { tail == "" || tail[0] == ':' }

  /** A plain value is taken whole exactly when it has no colon and begins neither with a quote nor with a `%`. */
  lemma TakePlainExactly(v: string, tail: string)
    requires Ended(tail)
    ensures TakeValue(v + tail) == Taken(v, tail) <==> Fits(v, Plain)
  {
    hide Number;
    var p := v + tail;
    assert v != "" ==> p[0] == v[0];
    if Fits(v, Plain) {
      SpanIs(v, tail, {':'});
    } else if v[0] !in {'"', '%'} {
      SpanClean(p, {':'});
    } else if v[0] == '"' {
      SpanClean(p[1..], {'"'});
    }
  }

  /** A quoted value is taken whole exactly when it has no quote in it. */
  lemma TakeQuotedExactly(v: string, tail: string)
    ensures TakeValue("\"" + v + "\"" + tail) == Taken(v, tail) <==> Fits(v, Quoted)
  {
    hide Number;
    var p := "\"" + v + "\"" + tail;
    assert p[1..] == v + ("\"" + tail);
    if Fits(v, Quoted) {
      SpanIs(v, "\"" + tail, {'"'});
      assert p[1..1 + |v|] == v && p[|v| + 2..] == tail;
    } else {
      SpanClean(p[1..], {'"'});
    }
  }

  /** A quote that is never closed. */
  lemma TakeUnclosed(v: string)
    requires '"' !in v
    ensures TakeValue("\"" + v) == Bad
  {
    hide Number;
    assert ("\"" + v)[1..] == v && v + "" == v;
    SpanIs(v, "", {'"'});
  }

  lemma TakeWritten(v: string, form: Form, tail: string)
    requires v != "" && Fits(v, form) && Ended(tail)
    ensures TakeValue(RenderValue(v, form) + tail) == Taken(v, tail)
  {
    hide TakeValue, Decimal;
    match form
    case Plain => TakePlainExactly(v, tail);
    case Quoted => TakeQuotedExactly(v, tail);
    case Counted => TakeRenderedValue(v, tail);
  }

  /** A written sub-option is split into name and value, whether it is known or not. */
  lemma TakeWrittenSub(s: Sub, form: Form, tail: string, options: Options)
    requires ':' !in s.name && '=' !in s.name && s.value != Just("") && SubFits(s, form)
    requires Ended(tail) && RenderSub(s, form) + tail != ""
    ensures TakeSub(RenderSub(s, form) + tail, options) ==
      if !options.known(s.name) then Wrong(Unknown)
      else if !options.takes(s) then Wrong(Rejected)
      else Step(s, if tail == "" then "" else tail[1..])
  {
    hide TakeValue, RenderValue, Fits;
    var p := RenderSub(s, form) + tail;
    match s.value
    case Nothing =>
      SpanIs(s.name, tail, {':', '='});
      assert p[..|s.name|] == s.name && p[|s.name|..] == tail;
    case Just(v) =>
      var rest := RenderValue(v, form) + tail;
      assert p == s.name + ("=" + rest);
      SpanIs(s.name, "=" + rest, {':', '='});
      assert p[..|s.name|] == s.name && p[|s.name| + 1..] == rest;
      TakeWritten(v, form, tail);
  }

  const NAMELESS := Sub("", Nothing)

  /** Written sub-options are read first, whatever stands behind the colon after them. */
  lemma {:induction false} TakeFront(subs: seq<Sub>, forms: seq<Form>, rest: string, options: Options)
    requires subs != [] && |forms| == |subs| && AllClean(subs, options) && AllFit(subs, forms)
    ensures TakeAll(Render(subs, forms) + ":" + rest, options) == Behind(subs, TakeAll(rest, options))
  {
    hide TakeSub, RenderSub, TakeAll, Clean, SubFits, Behind;
    var first := RenderSub(subs[0], forms[0]);
    if |subs| == 1 {
      FrontStep(subs[0], forms[0], rest, options);
      BehindOne(subs[0], TakeAll(rest, options));
      assert Render(subs, forms) == first && subs == [subs[0]];
    } else {
      var later := Render(subs[1..], forms[1..]) + ":" + rest;
      FrontStep(subs[0], forms[0], later, options);
      TakeFront(subs[1..], forms[1..], rest, options);
      BehindMore(subs, TakeAll(rest, options));
      assert Render(subs, forms) + ":" + rest == first + ":" + later;
    }
  }

  lemma FrontStep(s: Sub, form: Form, rest: string, options: Options)
    requires Clean(s, options) && SubFits(s, form)
    ensures TakeAll(RenderSub(s, form) + ":" + rest, options) == Before(s, TakeAll(rest, options))
  {
    hide TakeSub, RenderSub;
    var p := RenderSub(s, form) + ":" + rest;
    assert p == RenderSub(s, form) + (":" + rest) && (":" + rest)[1..] == rest;
    TakeWrittenSub(s, form, ":" + rest, options);
    TakeAllStep(p, options);
  }

  lemma BehindOne(sub: Sub, r: Result)
    ensures Behind([sub], r) == Before(sub, r)
  {
  }

  lemma BehindMore(subs: seq<Sub>, r: Result)
    requires subs != []
    ensures Behind(subs, r) == Before(subs[0], Behind(subs[1..], r))
  {
    if r.Parsed? {
      assert subs + r.subs == [subs[0]] + (subs[1..] + r.subs);
    }
  }

  /** Rendered sub-options are read back; only a nameless one at the end leaves no trace. */
  lemma TakeRendered(subs: seq<Sub>, forms: seq<Form>, options: Options)
    requires subs != [] && |forms| == |subs| && AllClean(subs, options) && AllFit(subs, forms)
    ensures TakeAll(Render(subs, forms), options)
      == Parsed(if subs[|subs| - 1] == NAMELESS then subs[..|subs| - 1] else subs)
  {
    hide TakeSub, RenderSub, TakeAll, Clean, SubFits;
    var n := |subs| - 1;
    TakeLast(subs[n], forms[n], options);
    if n == 0 {
      assert Render(subs, forms) == RenderSub(subs[0], forms[0]);
      assert subs == [subs[0]] && subs[..0] == [];
    } else {
      RenderSplit(subs, forms);
      TakeFront(subs[..n], forms[..n], RenderSub(subs[n], forms[n]), options);
      assert subs == subs[..n] + [subs[n]];
    }
  }

  lemma TakeLast(s: Sub, form: Form, options: Options)
    requires Clean(s, options) && SubFits(s, form)
    ensures TakeAll(RenderSub(s, form), options) == Parsed(if s == NAMELESS then [] else [s])
  {
    hide TakeSub, RenderSub, TakeAll;
    RenderedEmpty(s, form);
    TakeNothing(options);
    if s != NAMELESS {
      assert RenderSub(s, form) + "" == RenderSub(s, form);
      TakeWrittenSub(s, form, "", options);
      TakeAllStep(RenderSub(s, form), options);
      assert [s] + [] == [s];
    }
  }

  lemma {:induction false} RenderSplit(subs: seq<Sub>, forms: seq<Form>)
    requires |subs| > 1 && |forms| == |subs|
    ensures var n := |subs| - 1;
      Render(subs, forms) == Render(subs[..n], forms[..n]) + ":" + RenderSub(subs[n], forms[n])
  {
    hide RenderSub;
    var n := |subs| - 1;
    if n > 1 {
      RenderSplit(subs[1..], forms[1..]);
      assert subs[1..][..n - 1] == subs[..n][1..] && forms[1..][..n - 1] == forms[..n][1..];
    }
  }

  lemma TakeAllStep(p: string, options: Options)
    requires p != "" && TakeSub(p, options).Step?
    ensures TakeAll(p, options) == Before(TakeSub(p, options).sub, TakeAll(TakeSub(p, options).rest, options))
  {
  }

  lemma TakeNothing(options: Options)
    ensures TakeAll("", options) == Parsed([])
  {
  }

  lemma RenderedEmpty(s: Sub, form: Form)
    ensures RenderSub(s, form) == "" <==> s == NAMELESS
  {
  }

  /**
   * Parsing gives sub-options back that are written plain, quoted or with lengths, each one in a form
   * that its value fits, exactly when there are some, all are known, taken and have names without
   * separators and no empty value, and the last one is not nameless.
   */
  lemma ParseExactly(subs: seq<Sub>, forms: seq<Form>, options: Options)
    requires |forms| == |subs| && AllFit(subs, forms)
    ensures Parse(Render(subs, forms), options) == Parsed(subs) <==>
      (subs != [] && AllClean(subs, options) && subs[|subs| - 1] != NAMELESS)
  {
    hide RenderSub, TakeSub, SubFits;
    if subs != [] && AllClean(subs, options) {
      TakeRendered(subs, forms, options);
      RenderedEmpty(subs[0], forms[0]);
    } else if Parse(Render(subs, forms), options) == Parsed(subs) {
      ParsedClean(Render(subs, forms), options);
    }
  }

  /** How a sub-option can be wrong. */
  datatype Fault =
    | NotKnown(s: Sub, form: Form)
    | NotTaken(s: Sub, form: Form)
    | Unclosed(name: string, v: string)
    | Continued(name: string, v: string, form: Form, c: char)

  predicate IsFault(f: Fault, options: Options) {
    match f
    case NotKnown(s, form) => Separable(s, form) && !options.known(s.name)
    case NotTaken(s, form) => Separable(s, form) && options.known(s.name) && !options.takes(s)
    case Unclosed(name, v) => ':' !in name && '=' !in name && '"' !in v
    case Continued(name, v, form, c) =>
      ':' !in name && '=' !in name && v != "" && form != Plain && Fits(v, form) && c != ':'
  }

  predicate Separable(s: Sub, form: Form) {
    ':' !in s.name && '=' !in s.name && s.value != Just("") && SubFits(s, form) && s != NAMELESS
  }

  /** The text of the fault; what follows it is not looked at, but an unclosed quote takes all of it. */
  function FaultText(f: Fault, later: string): string {
    match f
    case NotKnown(s, form) => RenderSub(s, form) + ":" + later
    case NotTaken(s, form) => RenderSub(s, form) + ":" + later
    case Unclosed(name, v) => name + "=\"" + v
    case Continued(name, v, form, c) => name + "=" + RenderValue(v, form) + [c] + later
  }

  function FaultError(f: Fault): Error {
    match f case NotKnown(_, _) => Unknown case NotTaken(_, _) => Rejected case _ => Invalid
  }

  /** The first fault decides, whatever was read before it. */
  lemma FirstFault(subs: seq<Sub>, forms: seq<Form>, f: Fault, later: string, options: Options)
    requires subs != [] && |forms| == |subs| && AllClean(subs, options) && AllFit(subs, forms) && IsFault(f, options)
    ensures Parse(FaultText(f, later), options) == Failed(FaultError(f))
    ensures Parse(Render(subs, forms) + ":" + FaultText(f, later), options) == Failed(FaultError(f))
  {
    hide TakeAll, IsFault, FaultText, Render;
    FaultFails(f, later, options);
    TakeFront(subs, forms, FaultText(f, later), options);
  }

  lemma FaultFails(f: Fault, later: string, options: Options)
    requires IsFault(f, options)
    ensures FaultText(f, later) != "" && TakeAll(FaultText(f, later), options) == Failed(FaultError(f))
  {
    hide RenderSub, TakeSub, RenderValue, Fits, SubFits;
    var p := FaultText(f, later);
    match f {
      case NotKnown(s, form) =>
        assert p == RenderSub(s, form) + (":" + later);
        TakeWrittenSub(s, form, ":" + later, options);
      case NotTaken(s, form) =>
        assert p == RenderSub(s, form) + (":" + later);
        TakeWrittenSub(s, form, ":" + later, options);
      case Unclosed(name, v) =>
        assert p == name + ("=" + ("\"" + v));
        TakeUnclosed(v);
        TakeBad(name, "\"" + v, options);
      case Continued(name, v, form, c) =>
        var rest := RenderValue(v, form) + ([c] + later);
        assert p == name + ("=" + rest);
        TakeContinued(v, form, [c] + later);
        TakeBad(name, rest, options);
    }
  }

  /** Behind a closing quote or a counted value only a colon may follow. */
  lemma TakeContinued(v: string, form: Form, tail: string)
    requires v != "" && form != Plain && Fits(v, form)
    ensures TakeValue(RenderValue(v, form) + tail) == Taken(v, tail)
  {
    hide TakeValue, Decimal;
    if form == Quoted { TakeQuotedExactly(v, tail); } else { TakeRenderedValue(v, tail); }
  }

  lemma TakeBad(name: string, rest: string, options: Options)
    requires ':' !in name && '=' !in name
    requires TakeValue(rest) == Bad || (TakeValue(rest).rest != "" && TakeValue(rest).rest[0] != ':')
    ensures TakeSub(name + ("=" + rest), options) == Wrong(Invalid)
  {
    hide TakeValue;
    var p := name + ("=" + rest);
    SpanIs(name, "=" + rest, {':', '='});
    assert p[..|name|] == name && p[|name| + 1..] == rest;
  }

  function Behind(front: seq<Sub>, r: Result): Result {
    match r case Parsed(subs) => Parsed(front + subs) case Failed(e) => r
  }

  lemma BehindBefore(front: seq<Sub>, sub: Sub, r: Result)
    ensures Behind(front, Before(sub, r)) == Behind(front + [sub], r)
  {
    if r.Parsed? {
      assert front + ([sub] + r.subs) == front + [sub] + r.subs;
    }
  }

  /** The loop over a value: name, value, terminator, look-up and check of one sub-option a turn. */
  method ParseSubconf(param: string, options: Options) returns (r: Result)
    ensures r == Parse(param, options)
  {
    hide TakeValue;
    if param == "" {
      return Failed(MissingParam);
    }
    var p, lst := param, [];
    assert TakeAll(param, options) == Behind(lst, TakeAll(p, options));
    while p != ""
      invariant TakeAll(param, options) == Behind(lst, TakeAll(p, options))
      decreases |p|
    {
      ghost var step := TakeSub(p, options);
      ghost var before := p;
      var optlen := Span(p, {':', '='});
      var subopt, subparam := p[..optlen], "";
      p := p[optlen..];
      if p != "" && p[0] == '=' {
        assert p[1..] == before[optlen + 1..];
        var v := TakeValue(p[1..]);
        if v.Bad? {
          return Failed(Invalid);
        }
        subparam, p := v.value, v.rest;
      }
      if p != "" && p[0] == ':' {
        p := p[1..];
      } else if p != "" {
        return Failed(Invalid);
      }
      if !options.known(subopt) {
        return Failed(Unknown);
      }
      var sub := Sub(subopt, if subparam == "" then Nothing else Just(subparam));
      if !options.takes(sub) {
        return Failed(Rejected);
      }
      assert step == Step(sub, p);
      BehindBefore(lst, sub, TakeAll(p, options));
      lst := lst + [sub];
    }
    r := Parsed(lst);
  }
}
