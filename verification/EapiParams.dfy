/** The text form of the EAPI connection parameters (`src/eapi.rs`). */
module EapiParams {
  import opened Basics
  import opened Text

  datatype Duration = Duration(nanos: nat)

  /** How a timeout is printed and read back; its arithmetic is that of the float library. */
  datatype TimeoutText = TimeoutText(print_: Duration -> string, parse_: string -> Option<Duration>)

  /** The text of this timeout, if there is one, has no separators. */
  predicate PlainTimeout(c: TimeoutText, t: Option<Duration>) {
    t.Some? ==> ',' !in c.print_(t.value) && '=' !in c.print_(t.value)
  }

  /** The timeout read back from its text; nothing if the text does not parse. Large durations do
      not survive the passage through a float, so the result may differ. */
  function Reread(c: TimeoutText, t: Option<Duration>): Option<Option<Duration>> {
    match t
    case None => Some(None)
    case Some(d) => (match c.parse_(c.print_(d)) case None => None case Some(e) => Some(Some(e)))
  }

  /** `bufTtl` is in nanoseconds; sizes are 64-bit. */
  datatype Params = Params(
    path: string,
    timeout: Option<Duration>,
    bufSize: Option<nat>,
    queueSize: Option<nat>,
    bufTtl: Option<nat>)

  // ---------------------------------------------------------------- parsing

  /** One `key=value` part; anything after a second equals sign is ignored. */
  function SetParam(c: TimeoutText, p: Params, part: string): Option<Params> {
    var kv := Split(part, '=');
    if |kv| == 1 then None
    else if kv[0] == "timeout" then
      (match c.parse_(kv[1]) case None => None case Some(t) => Some(p.(timeout := Some(t))))
    else if kv[0] == "buf_size" then
      (match ParseUint(kv[1], MAX64) case None => None case Some(n) => Some(p.(bufSize := Some(n))))
    else if kv[0] == "queue_size" then
      (match ParseUint(kv[1], MAX64) case None => None case Some(n) => Some(p.(queueSize := Some(n))))
    else if kv[0] == "buf_ttl" then
      (match ParseUint(kv[1], MAX64) case None => None case Some(n) => Some(p.(bufTtl := Some(n * 1000))))
    else None
  }

  function SetAll(c: TimeoutText, p: Params, parts: seq<string>): Option<Params>
    decreases |parts|
  {
    if parts == [] then Some(p)
    else
      match SetParam(c, p, parts[0])
      case None => None
      case Some(q) => SetAll(c, q, parts[1..])
  }

  function Bare(path: string): Params {
    Params(path, None, None, None, None)
  }

  function Parse(c: TimeoutText, s: string): Option<Params> {
    SetAll(c, Bare(Split(s, ',')[0]), Split(s, ',')[1..])
  }

  /** `from_str` */
  method FromText(c: TimeoutText, s: string) returns (r: Option<Params>)
    ensures r == Parse(c, s)
  {
    var parts := Split(s, ',');
    var p := Bare(parts[0]);
    var i := 1;
    while i < |parts|
      invariant 1 <= i <= |parts|
      invariant Parse(c, s) == SetAll(c, p, parts[i..])
    {
      var q := SetParam(c, p, parts[i]);
      if q == None {
        return None;
      }
      assert parts[i..][1..] == parts[i + 1..];
      p, i := q.value, i + 1;
    }
    r := Some(p);
  }

  // ---------------------------------------------------------------- printing

  function TimeoutField(c: TimeoutText, p: Params): seq<string> {
    if p.timeout.Some? then ["timeout=" + c.print_(p.timeout.value)] else []
  }

  function NumberField(key: string, n: Option<nat>): seq<string> {
    if n.Some? then [key + "=" + Dec(n.value)] else []
  }

  function TtlMicros(n: Option<nat>): Option<nat> {
    if n.Some? then Some(n.value / 1000) else None
  }

  function Fields(c: TimeoutText, p: Params): seq<string> {
    TimeoutField(c, p) + NumberField("buf_size", p.bufSize) + NumberField("queue_size", p.queueSize)
    + NumberField("buf_ttl", TtlMicros(p.bufTtl))
  }

  function Pieces(fs: seq<string>): string {
    if fs == [] then "" else "," + fs[0] + Pieces(fs[1..])
  }

  function Display(c: TimeoutText, p: Params): string {
    p.path + Pieces(Fields(c, p))
  }

  lemma {:induction false} PiecesAppend(a: seq<string>, f: seq<string>)
    requires |f| <= 1
    ensures Pieces(a + f) == Pieces(a) + (if f == [] then "" else "," + f[0])
  {
    if a == [] {
      assert a + f == f;
      if f != [] {
        assert f[1..] == [];
      }
    } else {
      PiecesAppend(a[1..], f);
      assert (a + f)[1..] == a[1..] + f;
      var head, tail := "," + a[0], Pieces(a[1..]);
      assert Pieces(a + f) == head + Pieces(a[1..] + f) && Pieces(a) == head + tail;
      hide Pieces;
      Associate(head, tail, if f == [] then "" else "," + f[0]);
    }
  }

  /** One `if let Some(..)` of `fmt`: the text grows by the field if it is there. */
  lemma WriteField(path: string, s: string, a: seq<string>, f: seq<string>)
    requires s == path + Pieces(a) && |f| <= 1
    ensures (if f == [] then s else s + "," + f[0]) == path + Pieces(a + f)
  {
    PiecesAppend(a, f);
    hide Pieces;
    if f != [] {
      assert path + (Pieces(a) + ("," + f[0])) == path + Pieces(a) + "," + f[0];
    }
  }

  /** `fmt`, which writes the set fields one after the other. */
  method ToText(c: TimeoutText, p: Params) returns (s: string)
    ensures s == Display(c, p)
  {
    ghost var t := TimeoutField(c, p);
    ghost var b := NumberField("buf_size", p.bufSize);
    ghost var q := NumberField("queue_size", p.queueSize);
    ghost var l := NumberField("buf_ttl", TtlMicros(p.bufTtl));
    s := p.path;
    assert s == p.path + Pieces([]);
    hide Pieces, Dec;
    WriteField(p.path, s, [], t);
    if p.timeout.Some? {
      s := s + "," + ("timeout=" + c.print_(p.timeout.value));
    }
    assert [] + t == t;
    WriteField(p.path, s, t, b);
    if p.bufSize.Some? {
      s := s + "," + ("buf_size" + "=" + Dec(p.bufSize.value));
    }
    WriteField(p.path, s, t + b, q);
    if p.queueSize.Some? {
      s := s + "," + ("queue_size" + "=" + Dec(p.queueSize.value));
    }
    WriteField(p.path, s, t + b + q, l);
    if p.bufTtl.Some? {
      s := s + "," + ("buf_ttl" + "=" + Dec(p.bufTtl.value / 1000));
    }
  }

  // ---------------------------------------------------------------- round trips

  lemma {:induction false} SplitPieces(path: string, fs: seq<string>)
    requires ',' !in path && forall i :: 0 <= i < |fs| ==> ',' !in fs[i]
    ensures Split(path + Pieces(fs), ',') == [path] + fs
    decreases |fs|
  {
    if fs == [] {
      SplitWhole(path, ',');
      assert path + Pieces(fs) == path;
    } else {
      SplitPieces(fs[0], fs[1..]);
      SplitFirst(path, ',', fs[0] + Pieces(fs[1..]));
      assert path + Pieces(fs) == path + [','] + (fs[0] + Pieces(fs[1..]));
      assert [fs[0]] + fs[1..] == fs;
    }
  }

  lemma {:induction false} SetAllAppend(c: TimeoutText, p: Params, a: seq<string>, b: seq<string>)
    ensures SetAll(c, p, a + b) ==
            match SetAll(c, p, a) case None => None case Some(q) => SetAll(c, q, b)
    decreases |a|
  {
    hide SetParam;
    if a == [] {
      assert a + b == b;
    } else {
      assert (a + b)[1..] == a[1..] + b;
      if SetParam(c, p, a[0]).Some? {
        SetAllAppend(c, SetParam(c, p, a[0]).value, a[1..], b);
      }
    }
  }

  lemma SplitField(key: string, v: string)
    requires '=' !in key && '=' !in v
    ensures Split(key + "=" + v, '=') == [key, v]
  {
    SplitFirst(key, '=', v);
    SplitWhole(v, '=');
    assert "=" == ['='];
  }

  lemma SetOne(c: TimeoutText, p: Params, f: string)
    ensures SetAll(c, p, [f]) == SetParam(c, p, f)
  {
    hide SetParam;
    assert [f][1..] == [];
  }

  lemma SetTimeout(c: TimeoutText, p: Params, q: Params)
    requires PlainTimeout(c, q.timeout) && p.timeout == None
    ensures SetAll(c, p, TimeoutField(c, q)) ==
            match Reread(c, q.timeout) case None => None case Some(t) => Some(p.(timeout := t))
    ensures forall f :: f in TimeoutField(c, q) ==> ',' !in f
  {
    if q.timeout.Some? {
      var v := c.print_(q.timeout.value);
      SplitField("timeout", v);
      SetOne(c, p, "timeout=" + v);
      assert "timeout" + "=" + v == "timeout=" + v;
    }
  }

  lemma NumberFieldIsPlain(key: string, n: Option<nat>)
    requires ',' !in key
    ensures forall f :: f in NumberField(key, n) ==> ',' !in f
  {
    if n.Some? {
      NotInDigits(Dec(n.value), ',');
    }
  }

  lemma SetNumber(c: TimeoutText, p: Params, key: string, n: nat)
    requires key in {"buf_size", "queue_size", "buf_ttl"}
    ensures SetAll(c, p, [key + "=" + Dec(n)]) ==
            if n > MAX64 then None
            else if key == "buf_size" then Some(p.(bufSize := Some(n)))
            else if key == "queue_size" then Some(p.(queueSize := Some(n)))
            else Some(p.(bufTtl := Some(n * 1000)))
  {
    NotInDigits(Dec(n), '=');
    ParseDec(n, MAX64);
    SplitField(key, Dec(n));
    SetOne(c, p, key + "=" + Dec(n));
    hide Split, Dec;
    assert |[key, Dec(n)]| == 2;
  }

  /** What each parameter of the text sets. */
  lemma ParameterTexts(c: TimeoutText, p: Params, v: string)
    requires '=' !in v
    ensures SetParam(c, p, "timeout=" + v) ==
            match c.parse_(v) case None => None case Some(t) => Some(p.(timeout := Some(t)))
    ensures SetParam(c, p, "buf_size=" + v) ==
            match ParseUint(v, MAX64) case None => None case Some(n) => Some(p.(bufSize := Some(n)))
    ensures SetParam(c, p, "queue_size=" + v) ==
            match ParseUint(v, MAX64) case None => None case Some(n) => Some(p.(queueSize := Some(n)))
    ensures SetParam(c, p, "buf_ttl=" + v) ==
            match ParseUint(v, MAX64) case None => None case Some(n) => Some(p.(bufTtl := Some(n * 1000)))
  {
    hide Split, ParseUint;
    SplitField("timeout", v);
    SplitField("buf_size", v);
    SplitField("queue_size", v);
    SplitField("buf_ttl", v);
    assert "timeout" + "=" + v == "timeout=" + v;
    assert "buf_size" + "=" + v == "buf_size=" + v;
    assert "queue_size" + "=" + v == "queue_size=" + v;
    assert "buf_ttl" + "=" + v == "buf_ttl=" + v;
  }

  /** A part without an equals sign, or with another key, is refused. */
  lemma OthersRefused(c: TimeoutText, p: Params, part: string)
    requires SetParam(c, p, part).Some?
    ensures '=' in part && Split(part, '=')[0] in {"timeout", "buf_size", "queue_size", "buf_ttl"}
  {
    if '=' !in part {
      SplitWhole(part, '=');
    }
  }

  /** Whatever follows a second equals sign is ignored. */
  lemma RestIgnored(c: TimeoutText, p: Params, key: string, v: string, w: string)
    requires '=' !in key && '=' !in v
    ensures SetParam(c, p, key + "=" + v + "=" + w) == SetParam(c, p, key + "=" + v)
  {
    SplitField(key, v);
    SplitFirst(v, '=', w);
    SplitFirst(key, '=', v + ['='] + w);
    assert key + ['='] + (v + ['='] + w) == key + "=" + v + "=" + w;
    hide Split;
  }

  /** The text of parameters of which all are set. */
  lemma DisplayText(c: TimeoutText, p: Params)
    requires p.timeout.Some? && p.bufSize.Some? && p.queueSize.Some? && p.bufTtl.Some?
    ensures Display(c, p) == p.path
              + (",timeout=" + c.print_(p.timeout.value) + (",buf_size=" + Dec(p.bufSize.value)
              + (",queue_size=" + Dec(p.queueSize.value) + (",buf_ttl=" + Dec(p.bufTtl.value / 1000)))))
  {
    hide Pieces, Dec;
    var f, g := "timeout=" + c.print_(p.timeout.value), "buf_size" + "=" + Dec(p.bufSize.value);
    var h, i := "queue_size" + "=" + Dec(p.queueSize.value), "buf_ttl" + "=" + Dec(p.bufTtl.value / 1000);
    assert Fields(c, p) == [f, g, h, i];
    FourPieces(f, g, h, i);
    assert "," + f == ",timeout=" + c.print_(p.timeout.value);
    assert "," + g == ",buf_size=" + Dec(p.bufSize.value);
    assert "," + h == ",queue_size=" + Dec(p.queueSize.value);
    assert "," + i == ",buf_ttl=" + Dec(p.bufTtl.value / 1000);
  }

  lemma PiecesFirst(f: string, fs: seq<string>)
    ensures Pieces([f] + fs) == "," + f + Pieces(fs)
  {
    assert ([f] + fs)[1..] == fs;
  }

  lemma FourPieces(f: string, g: string, h: string, i: string)
    ensures Pieces([f, g, h, i]) == "," + f + ("," + g + ("," + h + ("," + i)))
  {
    assert Pieces([]) == "" && [i] + [] == [i];
    PiecesFirst(i, []);
    hide Pieces;
    assert "," + i + "" == "," + i;
    PiecesFirst(h, [i]);
    PiecesFirst(g, [h, i]);
    PiecesFirst(f, [g, h, i]);
    assert [h] + [i] == [h, i] && [g] + [h, i] == [g, h, i] && [f] + [g, h, i] == [f, g, h, i];
  }

  /** A field that is not set leaves no trace. */
  lemma DisplayNothing(c: TimeoutText, path: string)
    ensures Display(c, Bare(path)) == path
  {
    assert Fields(c, Bare(path)) == [];
  }

  predicate Fits(n: Option<nat>, max: nat) {
    n.Some? ==> n.value <= max
  }

  /** What printing keeps: everything, with the ttl cut to microseconds. */
  function Truncated(p: Params): Params {
    p.(bufTtl := if p.bufTtl.Some? then Some(p.bufTtl.value / 1000 * 1000) else None)
  }

  /** What parsing makes of printed parameters: the ttl is cut, the timeout is what its text says,
      and a ttl of more than 64 bits of microseconds does not parse. */
  function Reparsed(c: TimeoutText, p: Params): Option<Params> {
    if Reread(c, p.timeout).None? || !Fits(TtlMicros(p.bufTtl), MAX64) then None
    else Some(Truncated(p).(timeout := Reread(c, p.timeout).value))
  }

  lemma SetAllFields(c: TimeoutText, p: Params)
    requires PlainTimeout(c, p.timeout) && Fits(p.bufSize, MAX64) && Fits(p.queueSize, MAX64)
    ensures SetAll(c, Bare(p.path), Fields(c, p)) == Reparsed(c, p)
  {
    hide SetAll, TimeoutField, Reread;
    var t := TimeoutField(c, p);
    var b := NumberField("buf_size", p.bufSize);
    var q := NumberField("queue_size", p.queueSize);
    var l := NumberField("buf_ttl", TtlMicros(p.bufTtl));
    SetTimeout(c, Bare(p.path), p);
    SetAllAppend(c, Bare(p.path), t, b);
    SetAllAppend(c, Bare(p.path), t + b, q);
    SetAllAppend(c, Bare(p.path), t + b + q, l);
    if Reread(c, p.timeout).Some? {
      var p1 := Bare(p.path).(timeout := Reread(c, p.timeout).value);
      var p2 := p1.(bufSize := p.bufSize);
      var p3 := p2.(queueSize := p.queueSize);
      SetNothing(c, p1);
      SetNothing(c, p2);
      SetNothing(c, p3);
      if p.bufSize.Some? { SetNumber(c, p1, "buf_size", p.bufSize.value); }
      if p.queueSize.Some? { SetNumber(c, p2, "queue_size", p.queueSize.value); }
      if p.bufTtl.Some? { SetNumber(c, p3, "buf_ttl", p.bufTtl.value / 1000); }
    }
  }

  lemma SetNothing(c: TimeoutText, p: Params)
    ensures SetAll(c, p, []) == Some(p)
  {
  }

  /** Parsing what was printed restores every field, the ttl to the microsecond, exactly when the
      path has no comma, the timeout survives its own text and the ttl fits. Without a comma only the
      latter two can suffer. */
  lemma PrintParse(c: TimeoutText, p: Params)
    requires PlainTimeout(c, p.timeout) && Fits(p.bufSize, MAX64) && Fits(p.queueSize, MAX64)
    ensures ',' !in p.path ==> Parse(c, Display(c, p)) == Reparsed(c, p)
    ensures Parse(c, Display(c, p)) == Some(Truncated(p)) <==>
            ',' !in p.path && Reread(c, p.timeout) == Some(p.timeout) && Fits(TtlMicros(p.bufTtl), MAX64)
  {
    hide Parse, Display;
    if ',' in p.path {
      ParsedPath(c, Display(c, p));
    } else {
      PrintParsePlain(c, p);
    }
  }

  /** A parsed path has no comma. */
  lemma ParsedPath(c: TimeoutText, s: string)
    ensures Parse(c, s).Some? ==> ',' !in Parse(c, s).value.path
  {
    hide SetAll, Split;
    if Parse(c, s).Some? {
      SetAllParsable(c, Bare(Split(s, ',')[0]), Split(s, ',')[1..]);
      PartsAvoid(s, ',');
    }
  }

  lemma PrintParsePlain(c: TimeoutText, p: Params)
    requires PlainTimeout(c, p.timeout) && ',' !in p.path
    requires Fits(p.bufSize, MAX64) && Fits(p.queueSize, MAX64)
    ensures Parse(c, Display(c, p)) == Reparsed(c, p)
  {
    SetTimeout(c, Bare(p.path), p);
    NumberFieldIsPlain("buf_size", p.bufSize);
    NumberFieldIsPlain("queue_size", p.queueSize);
    NumberFieldIsPlain("buf_ttl", TtlMicros(p.bufTtl));
    SetAllFields(c, p);
    hide SetAll, TimeoutField, NumberField, Pieces;
    var fs := Fields(c, p);
    forall i | 0 <= i < |fs|
      ensures ',' !in fs[i]
    {
      assert fs[i] in fs;
      assert fs[i] in TimeoutField(c, p) || fs[i] in NumberField("buf_size", p.bufSize)
             || fs[i] in NumberField("queue_size", p.queueSize) || fs[i] in NumberField("buf_ttl", TtlMicros(p.bufTtl));
    }
    SplitPieces(p.path, fs);
    assert ([p.path] + fs)[1..] == fs;
  }

  /** Fields that came out of a parse fit their types, and the ttl is whole microseconds. */
  predicate Parsable(p: Params) {
    && Fits(p.bufSize, MAX64) && Fits(p.queueSize, MAX64) && Fits(TtlMicros(p.bufTtl), MAX64)
    && Truncated(p) == p
  }

  lemma {:induction false} SetAllParsable(c: TimeoutText, p: Params, parts: seq<string>)
    requires Parsable(p) && SetAll(c, p, parts).Some?
    ensures Parsable(SetAll(c, p, parts).value) && SetAll(c, p, parts).value.path == p.path
    decreases |parts|
  {
    if parts != [] {
      var q := SetParam(c, p, parts[0]).value;
      SetParamParsable(c, p, parts[0]);
      hide SetParam;
      SetAllParsable(c, q, parts[1..]);
    }
  }

  lemma SetParamParsable(c: TimeoutText, p: Params, part: string)
    requires Parsable(p) && SetParam(c, p, part).Some?
    ensures Parsable(SetParam(c, p, part).value) && SetParam(c, p, part).value.path == p.path
  {
    hide Split;
  }

  /** Whatever parses prints to a text that parses to the same parameters, exactly when the parsed
      timeout survives its own text. */
  lemma ParsePrintParse(c: TimeoutText, s: string)
    requires Parse(c, s).Some? && PlainTimeout(c, Parse(c, s).value.timeout)
    ensures var p := Parse(c, s).value;
            Parse(c, Display(c, p)) == Parse(c, s) <==> Reread(c, p.timeout) == Some(p.timeout)
  {
    hide SetAll, Display, Split;
    var p := Parse(c, s).value;
    SetAllParsable(c, Bare(Split(s, ',')[0]), Split(s, ',')[1..]);
    PartsAvoid(s, ',');
    PrintParse(c, p);
  }
}
