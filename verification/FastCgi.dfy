/** The FastCGI client (PhpFpmHandler.java): what it sends, read back by a reader that follows sections
    3.3 and 3.4 of the FastCGI Specification 1.0, and the loop that reads the response. */
module FastCgi {
  import opened Options

  type Byte = b: int | 0 <= b < 256

  const MAX_RECORD_CONTENT: int := 65535
  const BEGIN_REQUEST: Byte := 1
  const END_REQUEST: Byte := 3
  const PARAMS: Byte := 4
  const STDIN: Byte := 5
  const STDOUT: Byte := 6
  const STDERR: Byte := 7

  // ---------------------------------------------------------------------------------------------
  // Records, section 3.3
  // ---------------------------------------------------------------------------------------------

  /** A record of protocol version 1. */
  datatype Rec = Rec(kind: Byte, id: int, content: seq<Byte>, padding: seq<Byte>)

  predicate RecOk(r: Rec) {
    0 <= r.id < 0x1_0000 && |r.content| <= MAX_RECORD_CONTENT && |r.padding| < 256
  }

  function Header(kind: Byte, id: int, contentLength: int, paddingLength: int): (h: seq<Byte>)
    requires 0 <= id < 0x1_0000 && 0 <= contentLength < 0x1_0000 && 0 <= paddingLength < 256
    ensures |h| == 8
  {
    [1, kind, id / 0x100, id % 0x100, contentLength / 0x100, contentLength % 0x100, paddingLength, 0]
  }

  function RecBytes(r: Rec): seq<Byte>
    requires RecOk(r)
  {
    Header(r.kind, r.id, |r.content|, |r.padding|) + (r.content + r.padding)
  }

  datatype Split = Split(rec: Rec, rest: seq<Byte>)

  /** Two bytes, most significant first. */
  function Word(high: int, low: int): int { high * 0x100 + low }

  /** The reader's view of one record; None when the bytes end inside it. */
  function ReadRec(bytes: seq<Byte>): (s: Option<Split>)
    ensures s.Some? ==> |s.value.rest| < |bytes| && RecOk(s.value.rec)
  {
    if |bytes| < 8 then None
    else
      var n, p := Word(bytes[4], bytes[5]), bytes[6];
      var body := bytes[8..];
      if |body| < n + p then None
      else Some(Split(Rec(bytes[1], Word(bytes[2], bytes[3]), body[..n], body[n..n + p]), body[n + p..]))
  }

  /** All records, when the bytes end with the last. */
  function ReadAll(bytes: seq<Byte>): Option<seq<Rec>>
    decreases |bytes|
  {
    if bytes == [] then Some([])
    else
      var s := ReadRec(bytes);
      if s.None? then None
      else
        var others := ReadAll(s.value.rest);
        if others.None? then None else Some([s.value.rec] + others.value)
  }

  predicate AllOk(recs: seq<Rec>) {
    forall i: nat :: i < |recs| ==> RecOk(recs[i])
  }

  function Emit(recs: seq<Rec>): (bytes: seq<Byte>)
    requires AllOk(recs)
    ensures |bytes| >= 8 * |recs|
  {
    if recs == [] then [] else RecBytes(recs[0]) + Emit(recs[1..])
  }

  lemma Append<T>(a: seq<T>, b: seq<T>)
    ensures (a + b)[..|a|] == a && (a + b)[|a|..] == b
  {
  }

  lemma AppendTwo<T>(a: seq<T>, b: seq<T>, c: seq<T>)
    ensures (a + b + c)[..|a|] == a && (a + b + c)[|a|..|a| + |b|] == b && (a + b + c)[|a| + |b|..] == c
  {
  }

  lemma ReadBack(r: Rec, rest: seq<Byte>)
    requires RecOk(r)
    ensures ReadRec(RecBytes(r) + rest) == Some(Split(r, rest))
  {
    var h := Header(r.kind, r.id, |r.content|, |r.padding|);
    var bytes := RecBytes(r) + rest;
    assert bytes == h + (r.content + r.padding + rest);
    Append(h, r.content + r.padding + rest);
    AppendTwo(r.content, r.padding, rest);
    assert Word(bytes[4], bytes[5]) == |r.content|;
    assert Word(bytes[2], bytes[3]) == r.id;
  }

  /** The reader gets back the records that were emitted. */
  lemma {:induction false} ReadEmitted(recs: seq<Rec>)
    requires AllOk(recs)
    ensures ReadAll(Emit(recs)) == Some(recs)
  {
    if recs != [] {
      ReadBack(recs[0], Emit(recs[1..]));
      ReadEmitted(recs[1..]);
      ReadAllStep(recs[0], Emit(recs[1..]), recs[1..]);
      assert [recs[0]] + recs[1..] == recs;
    }
  }

  lemma ReadAllStep(r: Rec, others: seq<Byte>, recs: seq<Rec>)
    requires RecOk(r) && ReadRec(RecBytes(r) + others) == Some(Split(r, others)) && ReadAll(others) == Some(recs)
    ensures ReadAll(RecBytes(r) + others) == Some([r] + recs)
  {
    assert |RecBytes(r)| > 0;
  }

  lemma EmitOne(recs: seq<Rec>, r: Rec)
    requires AllOk(recs) && RecOk(r)
    ensures AllOk(recs + [r]) && Emit(recs + [r]) == Emit(recs) + RecBytes(r)
  {
    EmitAppend(recs, [r]);
    assert Emit([r]) == RecBytes(r) + Emit([]);
  }

  lemma {:induction false} EmitAppend(a: seq<Rec>, b: seq<Rec>)
    requires AllOk(a) && AllOk(b)
    ensures AllOk(a + b) && Emit(a + b) == Emit(a) + Emit(b)
  {
    if a == [] {
      assert a + b == b;
    } else {
      EmitAppend(a[1..], b);
      assert (a + b)[0] == a[0] && (a + b)[1..] == a[1..] + b;
      EmitSplit(a + b, a[1..], b);
    }
  }

  /** The bytes of the first record in front of what the others split into. */
  lemma EmitSplit(recs: seq<Rec>, a: seq<Rec>, b: seq<Rec>)
    requires AllOk(recs) && AllOk(a) && AllOk(b) && recs != []
    requires Emit(recs[1..]) == Emit(a) + Emit(b)
    ensures Emit(recs) == RecBytes(recs[0]) + Emit(a) + Emit(b)
  {
  }

  // ---------------------------------------------------------------------------------------------
  // Name-value pairs, section 3.4
  // ---------------------------------------------------------------------------------------------

  datatype Pair = Pair(name: seq<Byte>, value: seq<Byte>)

  /** One byte below 128, else four with the top bit set. */
  function EncodeLength(n: int): (e: seq<Byte>)
    requires 0 <= n < 0x8000_0000
    ensures |e| == if n < 128 then 1 else 4
  {
    if n < 128 then [n]
    else [n / 0x100_0000 + 0x80, n / 0x1_0000 % 0x100, n / 0x100 % 0x100, n % 0x100]
  }

  /** Lengths are Java ints. */
  predicate LengthsOk(p: Pair) {
    |p.name| < 0x8000_0000 && |p.value| < 0x8000_0000
  }

  function PairBytes(p: Pair): seq<Byte>
    requires LengthsOk(p)
  {
    EncodeLength(|p.name|) + (EncodeLength(|p.value|) + (p.name + p.value))
  }

  /** Four bytes, most significant first, without the top bit. */
  function Long(a: int, b: int, c: int, d: int): int {
    (a - 0x80) * 0x100_0000 + b * 0x1_0000 + c * 0x100 + d
  }

  datatype Length = Length(n: nat, rest: seq<Byte>)

  function ReadLength(bytes: seq<Byte>): (l: Option<Length>)
    ensures l.Some? ==> |l.value.rest| < |bytes|
  {
    if bytes == [] then None
    else if bytes[0] < 128 then Some(Length(bytes[0], bytes[1..]))
    else if |bytes| < 4 then None
    else Some(Length(Long(bytes[0], bytes[1], bytes[2], bytes[3]), bytes[4..]))
  }

  datatype PairSplit = PairSplit(pair: Pair, rest: seq<Byte>)

  function ReadPair(bytes: seq<Byte>): (s: Option<PairSplit>)
    ensures s.Some? ==> |s.value.rest| < |bytes|
  {
    var name := ReadLength(bytes);
    if name.None? then None
    else
      var value := ReadLength(name.value.rest);
      if value.None? then None
      else
        var n, v, body := name.value.n, value.value.n, value.value.rest;
        if |body| < n + v then None else Some(PairSplit(Pair(body[..n], body[n..n + v]), body[n + v..]))
  }

  function ReadPairs(bytes: seq<Byte>): Option<seq<Pair>>
    decreases |bytes|
  {
    if bytes == [] then Some([])
    else
      var s := ReadPair(bytes);
      if s.None? then None
      else
        var others := ReadPairs(s.value.rest);
        if others.None? then None else Some([s.value.pair] + others.value)
  }

  lemma LengthBack(n: int, rest: seq<Byte>)
    requires 0 <= n < 0x8000_0000
    ensures ReadLength(EncodeLength(n) + rest) == Some(Length(n, rest))
  {
    Append(EncodeLength(n), rest);
    if n >= 128 {
      FourBytes(n);
    }
  }

  lemma FourBytes(n: int)
    requires 0 <= n < 0x8000_0000
    ensures Long(n / 0x100_0000 + 0x80, n / 0x1_0000 % 0x100, n / 0x100 % 0x100, n % 0x100) == n
  {
    var a := n / 0x100;
    var b := a / 0x100;
    assert n / 0x1_0000 == b && n / 0x100_0000 == b / 0x100;
  }

  lemma PairBack(p: Pair, rest: seq<Byte>)
    requires LengthsOk(p)
    ensures ReadPair(PairBytes(p) + rest) == Some(PairSplit(p, rest))
  {
    var n, v := EncodeLength(|p.name|), EncodeLength(|p.value|);
    var body := p.name + p.value + rest;
    assert PairBytes(p) + rest == n + (v + body);
    LengthBack(|p.name|, v + body);
    LengthBack(|p.value|, body);
    AppendTwo(p.name, p.value, rest);
  }

  // ---------------------------------------------------------------------------------------------
  // What is sent
  // ---------------------------------------------------------------------------------------------

  function PaddingLength(n: nat): (p: int)
    ensures 0 <= p < 8 && (n + p) % 8 == 0
  {
    assert n == 8 * (n / 8) + n % 8;
    (8 - n % 8) % 8
  }

  function Zeros(n: nat): (z: seq<Byte>)
    ensures |z| == n
  {
    seq(n, _ => 0)
  }

  /** A record padded to a multiple of eight bytes. */
  function Padded(kind: Byte, id: int, content: seq<Byte>): Rec {
    Rec(kind, id, content, Zeros(PaddingLength(|content|)))
  }

  /** The pair fits one record. */
  predicate PairFits(p: Pair) {
    && LengthsOk(p)
    && |PairBytes(p)| <= MAX_RECORD_CONTENT
  }

  predicate AllFit(pairs: seq<Pair>) {
    forall i: nat :: i < |pairs| ==> PairFits(pairs[i])
  }

  /** A parameter as the caller passes it; a value that was never configured is missing. */
  datatype Param = Param(name: seq<Byte>, value: Option<seq<Byte>>)

  predicate ParamLengthsOk(p: Param) {
    |p.name| < 0x8000_0000 && (p.value.Some? ==> |p.value.value| < 0x8000_0000)
  }

  predicate ParamFits(p: Param) {
    p.value.Some? && PairFits(Pair(p.name, p.value.value))
  }

  /** The parameters that have a value and fit a record, in order. */
  function Fitting(params: seq<Param>): (f: seq<Pair>)
    ensures AllFit(f)
  {
    if params == [] then []
    else if ParamFits(params[0]) then [Pair(params[0].name, params[0].value.value)] + Fitting(params[1..])
    else Fitting(params[1..])
  }

  /** The parameters in front of the first one without a value. */
  function BeforeMissing(params: seq<Param>): seq<Param> {
    if params == [] || params[0].value.None? then [] else [params[0]] + BeforeMissing(params[1..])
  }

  /** What one parameter is sent as: one without a value as the empty record, one that does not fit not
      at all. */
  function ParamRec(id: int, p: Param): seq<Rec> {
    if p.value.None? then [Padded(PARAMS, id, [])]
    else if ParamFits(p) then [Padded(PARAMS, id, PairBytes(Pair(p.name, p.value.value)))]
    else []
  }

  function ParamRecs(id: int, params: seq<Param>): seq<Rec> {
    if params == [] then [] else ParamRec(id, params[0]) + ParamRecs(id, params[1..])
  }

  /** The body in slices of at most one record's content. */
  function Slices(body: seq<Byte>): (s: seq<seq<Byte>>)
    decreases |body|
  {
    if body == [] then []
    else if |body| <= MAX_RECORD_CONTENT then [body]
    else [body[..MAX_RECORD_CONTENT]] + Slices(body[MAX_RECORD_CONTENT..])
  }

  function StdinRecs(id: int, slices: seq<seq<Byte>>): (recs: seq<Rec>)
    ensures |recs| == |slices|
  {
    if slices == [] then [] else [Padded(STDIN, id, slices[0])] + StdinRecs(id, slices[1..])
  }

  function BeginRec(id: int): Rec {
    Rec(BEGIN_REQUEST, id, [0, 1, 0, 0, 0, 0, 0, 0], [])
  }

  /** The parameter records, ended by an empty one. */
  function ParamPart(id: int, params: seq<Param>): seq<Rec> {
    ParamRecs(id, params) + [Padded(PARAMS, id, [])]
  }

  /** The body's records, ended by an empty one. */
  function StdinPart(id: int, body: seq<Byte>): seq<Rec> {
    StdinRecs(id, Slices(body)) + [Padded(STDIN, id, [])]
  }

  /** All records of a request. */
  function RequestRecs(id: int, params: seq<Param>, body: seq<Byte>): seq<Rec> {
    [BeginRec(id)] + ParamPart(id, params) + StdinPart(id, body)
  }

  // ---------------------------------------------------------------------------------------------
  // What the reader makes of it
  // ---------------------------------------------------------------------------------------------

  /** The contents of one stream: its records up to the first empty one, put together. */
  function Stream(recs: seq<Rec>, kind: Byte): seq<Byte> {
    if recs == [] then []
    else if recs[0].kind != kind then Stream(recs[1..], kind)
    else if recs[0].content == [] then []
    else recs[0].content + Stream(recs[1..], kind)
  }

  lemma {:induction false} SlicesJoin(id: int, body: seq<Byte>, more: seq<Rec>)
    ensures Stream(StdinRecs(id, Slices(body)) + [Padded(STDIN, id, [])] + more, STDIN) == body
    ensures forall i: nat :: i < |Slices(body)| ==> 0 < |Slices(body)[i]| <= MAX_RECORD_CONTENT
    decreases |body|
  {
    var end := [Padded(STDIN, id, [])];
    if body == [] {
      assert StdinRecs(id, []) + end + more == end + more;
    } else if |body| <= MAX_RECORD_CONTENT {
      var r := Padded(STDIN, id, body);
      assert StdinRecs(id, [body]) + end + more == [r] + (end + more);
      assert Stream(end + more, STDIN) == [];
    } else {
      var first, others := body[..MAX_RECORD_CONTENT], body[MAX_RECORD_CONTENT..];
      SlicesJoin(id, others, more);
      var r := Padded(STDIN, id, first);
      assert StdinRecs(id, [first] + Slices(others)) == [r] + StdinRecs(id, Slices(others));
      assert StdinRecs(id, Slices(body)) + end + more == [r] + (StdinRecs(id, Slices(others)) + end + more);
      assert body == first + others;
    }
  }

  function PairsBytes(pairs: seq<Pair>): seq<Byte>
    requires AllFit(pairs)
  {
    if pairs == [] then []
    else
      var first := pairs[0];
      assert PairFits(first);
      PairBytes(first) + PairsBytes(pairs[1..])
  }

  lemma ReadPairsStep(p: Pair, others: seq<Byte>, pairs: seq<Pair>)
    requires PairFits(p) && ReadPair(PairBytes(p) + others) == Some(PairSplit(p, others))
    requires ReadPairs(others) == Some(pairs)
    ensures ReadPairs(PairBytes(p) + others) == Some([p] + pairs)
  {
    assert |PairBytes(p)| > 0;
  }

  lemma {:induction false} PairsBack(pairs: seq<Pair>)
    requires AllFit(pairs)
    ensures ReadPairs(PairsBytes(pairs)) == Some(pairs)
  {
    if pairs != [] {
      assert PairFits(pairs[0]);
      var others := PairsBytes(pairs[1..]);
      PairsBack(pairs[1..]);
      PairBack(pairs[0], others);
      ReadPairsStep(pairs[0], others, pairs[1..]);
      assert [pairs[0]] + pairs[1..] == pairs;
    }
  }

  lemma EmptyEnds(id: int, others: seq<Rec>)
    ensures Stream([Padded(PARAMS, id, [])] + others, PARAMS) == []
  {
  }

  lemma FirstParam(id: int, params: seq<Param>, more: seq<Rec>)
    requires params != []
    ensures ParamPart(id, params) + more == ParamRec(id, params[0]) + (ParamPart(id, params[1..]) + more)
  {
  }

  /** A reader sees what fits in front of the first empty record. */
  lemma {:induction false} ParamsJoin(id: int, params: seq<Param>, more: seq<Rec>)
    ensures Stream(ParamPart(id, params) + more, PARAMS) == PairsBytes(Fitting(BeforeMissing(params)))
  {
    if params == [] {
      EmptyEnds(id, more);
    } else {
      var others := ParamPart(id, params[1..]) + more;
      FirstParam(id, params, more);
      if params[0].value.None? {
        EmptyEnds(id, others);
      } else {
        ParamsJoin(id, params[1..], more);
        JoinParam(id, params, others);
      }
    }
  }

  /** A parameter with a value in front of what is already understood. */
  lemma JoinParam(id: int, params: seq<Param>, others: seq<Rec>)
    requires params != [] && params[0].value.Some?
    requires Stream(others, PARAMS) == PairsBytes(Fitting(BeforeMissing(params[1..])))
    ensures Stream(ParamRec(id, params[0]) + others, PARAMS) == PairsBytes(Fitting(BeforeMissing(params)))
  {
    FittingFirst(params);
    if ParamFits(params[0]) {
      JoinFirst(id, Pair(params[0].name, params[0].value.value), Fitting(BeforeMissing(params[1..])), others);
    } else {
      assert ParamRec(id, params[0]) + others == others;
    }
  }

  lemma FittingFirst(params: seq<Param>)
    requires params != [] && params[0].value.Some?
    ensures
      var rest := Fitting(BeforeMissing(params[1..]));
      Fitting(BeforeMissing(params))
      == if ParamFits(params[0]) then [Pair(params[0].name, params[0].value.value)] + rest else rest
  {
    var before := BeforeMissing(params);
    assert before[0] == params[0] && before[1..] == BeforeMissing(params[1..]);
  }

  lemma JoinFirst(id: int, p: Pair, pairs: seq<Pair>, others: seq<Rec>)
    requires PairFits(p) && AllFit(pairs) && Stream(others, PARAMS) == PairsBytes(pairs)
    ensures AllFit([p] + pairs)
    ensures Stream([Padded(PARAMS, id, PairBytes(p))] + others, PARAMS) == PairsBytes([p] + pairs)
  {
    var all := [p] + pairs;
    assert all[0] == p && all[1..] == pairs;
    assert |PairBytes(p)| > 0;
  }

  lemma {:induction false} SkipKind(recs: seq<Rec>, more: seq<Rec>, kind: Byte)
    requires forall i: nat :: i < |recs| ==> recs[i].kind != kind
    ensures Stream(recs + more, kind) == Stream(more, kind)
  {
    if recs == [] {
      assert recs + more == more;
    } else {
      SkipKind(recs[1..], more, kind);
      assert (recs + more)[1..] == recs[1..] + more;
    }
  }

  predicate AllParams(recs: seq<Rec>) {
    forall i: nat :: i < |recs| ==> RecOk(recs[i]) && recs[i].kind == PARAMS
  }

  lemma {:induction false} ParamKinds(id: int, params: seq<Param>)
    requires 0 <= id < 0x1_0000
    ensures AllParams(ParamRecs(id, params))
  {
    if params != [] {
      ParamKinds(id, params[1..]);
    }
  }

  lemma {:induction false} StdinKinds(id: int, slices: seq<seq<Byte>>)
    requires 0 <= id < 0x1_0000 && forall i: nat :: i < |slices| ==> 0 < |slices[i]| <= MAX_RECORD_CONTENT
    ensures forall i: nat :: i < |slices| ==>
      RecOk(StdinRecs(id, slices)[i]) && StdinRecs(id, slices)[i].kind == STDIN
      && StdinRecs(id, slices)[i].content == slices[i]
  {
    if slices != [] {
      StdinKinds(id, slices[1..]);
    }
  }

  lemma ParamPartOk(id: int, params: seq<Param>)
    requires 0 <= id < 0x1_0000
    ensures AllParams(ParamPart(id, params))
  {
    ParamKinds(id, params);
  }

  lemma StdinPartOk(id: int, body: seq<Byte>)
    requires 0 <= id < 0x1_0000
    ensures AllOk(StdinPart(id, body))
  {
    SlicesJoin(id, body, []);
    StdinKinds(id, Slices(body));
  }

  lemma RequestOk(id: int, params: seq<Param>, body: seq<Byte>)
    requires 0 <= id < 0x1_0000
    ensures AllOk(RequestRecs(id, params, body))
  {
    ParamPartOk(id, params);
    StdinPartOk(id, body);
  }

  lemma ParamsRead(id: int, params: seq<Param>, body: seq<Byte>)
    requires 0 <= id < 0x1_0000
    ensures ReadPairs(Stream(RequestRecs(id, params, body), PARAMS)) == Some(Fitting(BeforeMissing(params)))
  {
    var others := ParamPart(id, params) + StdinPart(id, body);
    assert RequestRecs(id, params, body) == [BeginRec(id)] + others;
    SkipKind([BeginRec(id)], others, PARAMS);
    ParamsJoin(id, params, StdinPart(id, body));
    PairsBack(Fitting(BeforeMissing(params)));
  }

  lemma BodyRead(id: int, params: seq<Param>, body: seq<Byte>)
    requires 0 <= id < 0x1_0000
    ensures Stream(RequestRecs(id, params, body), STDIN) == body
  {
    ParamPartOk(id, params);
    SkipKind([BeginRec(id)] + ParamPart(id, params), StdinPart(id, body), STDIN);
    SlicesJoin(id, body, []);
    assert StdinPart(id, body) + [] == StdinPart(id, body);
  }

  /** The reader recovers from a request exactly the parameters that fit one record in front of the first
      one without a value, in order, and the whole body. */
  lemma RequestRead(id: int, params: seq<Param>, body: seq<Byte>)
    requires 0 <= id < 0x1_0000
    ensures
      var recs := RequestRecs(id, params, body);
      && AllOk(recs) && ReadAll(Emit(recs)) == Some(recs)
      && ReadPairs(Stream(recs, PARAMS)) == Some(Fitting(BeforeMissing(params)))
      && Stream(recs, STDIN) == body
  {
    RequestOk(id, params, body);
    ReadEmitted(RequestRecs(id, params, body));
    ParamsRead(id, params, body);
    BodyRead(id, params, body);
  }

  /** No parameter that fits comes after one without a value. */
  predicate NothingBehind(params: seq<Param>) {
    forall i: nat, j: nat :: i < j < |params| && params[i].value.None? ==> !ParamFits(params[j])
  }

  lemma {:induction false} NoneFitting(params: seq<Param>)
    ensures Fitting(params) == [] <==> forall j: nat :: j < |params| ==> !ParamFits(params[j])
  {
    if params != [] {
      NoneFitting(params[1..]);
      assert forall j: nat :: 0 < j < |params| ==> params[j] == params[1..][j - 1];
      assert forall j: nat :: j < |params| - 1 ==> params[1..][j] == params[j + 1];
    }
  }

  lemma {:induction false} FittingBefore(params: seq<Param>)
    ensures Fitting(BeforeMissing(params)) == Fitting(params) <==> NothingBehind(params)
  {
    if params != [] {
      var first, others := params[0], params[1..];
      assert forall j: nat :: 0 < j < |params| ==> params[j] == others[j - 1];
      if first.value.None? {
        NoneFitting(others);
        BehindFirst(params);
      } else {
        FittingBefore(others);
        var before := BeforeMissing(params);
        assert before[0] == first && before[1..] == BeforeMissing(others);
        BehindOthers(params);
        SameBehind(Pair(first.name, first.value.value), Fitting(BeforeMissing(others)), Fitting(others));
      }
    }
  }

  lemma SameBehind(p: Pair, a: seq<Pair>, b: seq<Pair>)
    ensures [p] + a == [p] + b <==> a == b
  {
    assert ([p] + a)[1..] == a && ([p] + b)[1..] == b;
  }

  lemma BehindFirst(params: seq<Param>)
    requires params != [] && params[0].value.None?
    ensures NothingBehind(params) <==> forall j: nat :: j < |params[1..]| ==> !ParamFits(params[1..][j])
  {
    assert forall j: nat :: j < |params| - 1 ==> params[1..][j] == params[j + 1];
    if forall j: nat :: j < |params[1..]| ==> !ParamFits(params[1..][j]) {
      forall i: nat, j: nat | i < j < |params| && params[i].value.None?
        ensures !ParamFits(params[j])
      {
        assert params[j] == params[1..][j - 1];
      }
    }
  }

  lemma BehindOthers(params: seq<Param>)
    requires params != [] && params[0].value.Some?
    ensures NothingBehind(params) <==> NothingBehind(params[1..])
  {
    assert forall j: nat :: j < |params| - 1 ==> params[1..][j] == params[j + 1];
    if NothingBehind(params[1..]) {
      forall i: nat, j: nat | i < j < |params| && params[i].value.None?
        ensures !ParamFits(params[j])
      {
        assert params[i] == params[1..][i - 1] && params[j] == params[1..][j - 1];
      }
    }
  }

  /** The reader recovers all parameters that fit if and only if none of them comes after one without a
      value. */
  lemma RequestReadWhole(id: int, params: seq<Param>, body: seq<Byte>)
    requires 0 <= id < 0x1_0000
    ensures ReadPairs(Stream(RequestRecs(id, params, body), PARAMS)) == Some(Fitting(params)) <==> NothingBehind(params)
  {
    ParamsRead(id, params, body);
    FittingBefore(params);
  }

  /** Without a configured local address the parameter behind it is lost. */
  lemma MissingValueLoses(id: int, body: seq<Byte>)
    requires 0 <= id < 0x1_0000
    ensures
      var params := [Param([65], None), Param([66], Some([1]))];
      && ReadPairs(Stream(RequestRecs(id, params, body), PARAMS)) == Some([])
      && Fitting(params) == [Pair([66], [1])]
  {
    var params := [Param([65], None), Param([66], Some([1]))];
    ParamsRead(id, params, body);
    assert ParamFits(params[1]);
    assert params[1..] == [params[1]] && params[1..][1..] == [];
    assert Fitting(params[1..]) == [Pair([66], [1])];
  }

  /** No empty STDIN record goes out before the one that ends the body. */
  lemma NoEarlyEnd(id: int, params: seq<Param>, body: seq<Byte>, i: nat)
    requires 0 <= id < 0x1_0000 && i < |RequestRecs(id, params, body)| - 1
    ensures RequestRecs(id, params, body)[i].kind == STDIN ==> RequestRecs(id, params, body)[i].content != []
  {
    ParamPartOk(id, params);
    SlicesJoin(id, body, []);
    StdinKinds(id, Slices(body));
    var before := 1 + |ParamPart(id, params)|;
    if i >= before {
      assert RequestRecs(id, params, body)[i] == StdinRecs(id, Slices(body))[i - before];
    } else if 1 <= i {
      assert RequestRecs(id, params, body)[i] == ParamPart(id, params)[i - 1];
    }
  }

  // ---------------------------------------------------------------------------------------------
  // Sending
  // ---------------------------------------------------------------------------------------------

  lemma ChunksJoin(sent: seq<Byte>, header: seq<Byte>, nameLength: seq<Byte>, valueLength: seq<Byte>,
                   name: seq<Byte>, value: seq<Byte>)
    ensures sent + header + nameLength + valueLength + name + value
         == sent + (header + (nameLength + (valueLength + (name + value))))
  {
  }

  lemma PaddedBehind(sent: seq<Byte>, header: seq<Byte>, content: seq<Byte>, padding: seq<Byte>)
    ensures sent + (header + content) + padding == sent + (header + (content + padding))
    ensures sent + (header + content) + [] == sent + (header + content)
    ensures padding == [] ==> content + padding == content
  {
  }

  /** The connection to the server, with everything sent on it. */
  class Connection {
    var sent: seq<Byte>

    constructor ()
      ensures sent == []
    {
      sent := [];
    }

    method SendChunk(data: seq<Byte>)
      modifies this
      ensures sent == old(sent) + data
    {
      sent := sent + data;
    }

    method SendHeader(kind: Byte, id: int, contentLength: int, paddingLength: int)
      requires 0 <= id < 0x1_0000 && 0 <= contentLength < 0x1_0000 && 0 <= paddingLength < 256
      modifies this
      ensures sent == old(sent) + Header(kind, id, contentLength, paddingLength)
    {
      SendChunk([1, kind, id / 0x100, id % 0x100, contentLength / 0x100, contentLength % 0x100, paddingLength, 0]);
    }

    method SendBeginRequest(id: int)
      requires 0 <= id < 0x1_0000
      modifies this
      ensures sent == old(sent) + RecBytes(BeginRec(id))
    {
      SendHeader(BEGIN_REQUEST, id, 8, 0);
      SendChunk([0, 1, 0, 0, 0, 0, 0, 0]);
    }

    /** One parameter, or the end of the parameters: a missing name or value sends the end record. A
        parameter too long for a record is left out. */
    method SendParam(name: Option<seq<Byte>>, value: Option<seq<Byte>>, id: int)
      requires 0 <= id < 0x1_0000
      requires (name.Some? ==> |name.value| < 0x8000_0000) && (value.Some? ==> |value.value| < 0x8000_0000)
      modifies this
      ensures sent == old(sent) +
        (if name.None? || value.None? then RecBytes(Padded(PARAMS, id, []))
         else if PairFits(Pair(name.value, value.value)) then RecBytes(Padded(PARAMS, id, PairBytes(Pair(name.value, value.value))))
         else [])
    {
      if name.None? || value.None? {
        SendHeader(PARAMS, id, 0, 0);
        return;
      }
      SendPair(Pair(name.value, value.value), id);
    }

    method SendPair(p: Pair, id: int)
      requires 0 <= id < 0x1_0000 && LengthsOk(p)
      modifies this
      ensures sent == old(sent) + if PairFits(p) then RecBytes(Padded(PARAMS, id, PairBytes(p))) else []
    {
      var nameLength := EncodeLength(|p.name|);
      var valueLength := EncodeLength(|p.value|);
      var contentLength := |nameLength| + |valueLength| + |p.name| + |p.value|;
      if contentLength > MAX_RECORD_CONTENT {
        return;
      }
      var paddingLength := (8 - contentLength % 8) % 8;
      ghost var before := sent;
      SendHeader(PARAMS, id, contentLength, paddingLength);
      ghost var header := Header(PARAMS, id, contentLength, paddingLength);
      SendChunk(nameLength);
      SendChunk(valueLength);
      SendChunk(p.name);
      SendChunk(p.value);
      ChunksJoin(before, header, nameLength, valueLength, p.name, p.value);
      assert sent == before + (header + PairBytes(p));
      if paddingLength != 0 {
        SendChunk(Zeros(paddingLength));
      }
      PaddedBehind(before, header, PairBytes(p), Zeros(paddingLength));
    }

    method SendStdin(data: seq<Byte>, offset: nat, length: nat, id: int)
      requires 0 <= id < 0x1_0000 && offset + length <= |data| && length <= MAX_RECORD_CONTENT
      modifies this
      ensures sent == old(sent) + RecBytes(Padded(STDIN, id, data[offset..offset + length]))
    {
      var paddingLength := (8 - length % 8) % 8;
      SendHeader(STDIN, id, length, paddingLength);
      if length != 0 {
        SendChunk(data[offset..offset + length]);
        if paddingLength != 0 {
          SendChunk(Zeros(paddingLength));
        }
      }
    }

    /** The slicing loop and the end of the stream. A body that is not sent is an empty one. */
    method SendBody(body: seq<Byte>, id: int)
      requires 0 <= id < 0x1_0000
      modifies this
      ensures AllOk(StdinPart(id, body)) && sent == old(sent) + Emit(StdinPart(id, body))
    {
      StdinPartOk(id, body);
      ghost var recs: seq<Rec> := [];
      assert sent == old(sent) + Emit(recs);
      if |body| > 0 {
        var index;
        index, recs := SendSlices(body, id);
        assert body[index..index + (|body| - index)] == body[index..];
        SendRec(body, index, |body| - index, id, old(sent), recs);
        recs := recs + [Padded(STDIN, id, body[index..])];
      }
      SendRec([], 0, 0, id, old(sent), recs);
    }

    /** The loop: every slice but the last. */
    method SendSlices(body: seq<Byte>, id: int) returns (index: nat, ghost recs: seq<Rec>)
      requires 0 <= id < 0x1_0000 && |body| > 0
      modifies this
      ensures index < |body| && AllOk(recs) && sent == old(sent) + Emit(recs)
      ensures |body| - index <= MAX_RECORD_CONTENT
      ensures StdinRecs(id, Slices(body)) == recs + [Padded(STDIN, id, body[index..])]
    {
      index, recs := 0, [];
      assert body[0..] == body;
      while |body| - index > MAX_RECORD_CONTENT
        invariant 0 <= index < |body| && AllOk(recs)
        invariant sent == old(sent) + Emit(recs)
        invariant StdinRecs(id, Slices(body)) == recs + StdinRecs(id, Slices(body[index..]))
      {
        SliceNext(body, index, id);
        SendRec(body, index, MAX_RECORD_CONTENT, id, old(sent), recs);
        recs := recs + [Padded(STDIN, id, body[index..index + MAX_RECORD_CONTENT])];
        index := index + MAX_RECORD_CONTENT;
      }
      OneSlice(body[index..], id);
    }

    /** One more record behind those sent. */
    method SendRec(data: seq<Byte>, offset: nat, length: nat, id: int, ghost base: seq<Byte>, ghost recs: seq<Rec>)
      requires 0 <= id < 0x1_0000 && offset + length <= |data| && length <= MAX_RECORD_CONTENT
      requires AllOk(recs) && sent == base + Emit(recs)
      modifies this
      ensures AllOk(recs + [Padded(STDIN, id, data[offset..offset + length])])
      ensures sent == base + Emit(recs + [Padded(STDIN, id, data[offset..offset + length])])
    {
      EmitOne(recs, Padded(STDIN, id, data[offset..offset + length]));
      SendStdin(data, offset, length, id);
    }

    lemma OneSlice(body: seq<Byte>, id: int)
      requires 0 < |body| <= MAX_RECORD_CONTENT
      ensures StdinRecs(id, Slices(body)) == [Padded(STDIN, id, body)]
    {
      assert Slices(body) == [body];
      assert StdinRecs(id, [body]) == [Padded(STDIN, id, body)] + StdinRecs(id, []);
    }

    lemma SliceNext(body: seq<Byte>, index: nat, id: int)
      requires |body| - index > MAX_RECORD_CONTENT
      ensures
        var r := Padded(STDIN, id, body[index..index + MAX_RECORD_CONTENT]);
        StdinRecs(id, Slices(body[index..])) == [r] + StdinRecs(id, Slices(body[index + MAX_RECORD_CONTENT..]))
    {
      var b := body[index..];
      assert b[..MAX_RECORD_CONTENT] == body[index..index + MAX_RECORD_CONTENT];
      assert b[MAX_RECORD_CONTENT..] == body[index + MAX_RECORD_CONTENT..];
    }

    /** A whole request. */
    method SendRequest(id: int, params: seq<Param>, body: seq<Byte>)
      requires 0 <= id < 0x1_0000
      requires forall i: nat :: i < |params| ==> ParamLengthsOk(params[i])
      modifies this
      ensures AllOk(RequestRecs(id, params, body))
      ensures sent == old(sent) + Emit(RequestRecs(id, params, body))
    {
      RequestBytes(id, params, body);
      Associates(sent, RecBytes(BeginRec(id)), Emit(ParamPart(id, params)), Emit(StdinPart(id, body)));
      SendBeginRequest(id);
      SendParams(id, params);
      SendBody(body, id);
    }

    lemma Associates(a: seq<Byte>, b: seq<Byte>, c: seq<Byte>, d: seq<Byte>)
      ensures a + b + c + d == a + (b + c + d)
    {
    }

    lemma RequestBytes(id: int, params: seq<Param>, body: seq<Byte>)
      requires 0 <= id < 0x1_0000
      ensures AllOk(RequestRecs(id, params, body)) && AllOk(ParamPart(id, params)) && AllOk(StdinPart(id, body))
      ensures Emit(RequestRecs(id, params, body))
           == RecBytes(BeginRec(id)) + Emit(ParamPart(id, params)) + Emit(StdinPart(id, body))
    {
      ParamPartOk(id, params);
      StdinPartOk(id, body);
      EmitOne([], BeginRec(id));
      assert [] + [BeginRec(id)] == [BeginRec(id)];
      EmitAppend([BeginRec(id)], ParamPart(id, params));
      EmitAppend([BeginRec(id)] + ParamPart(id, params), StdinPart(id, body));
    }

    method SendParams(id: int, params: seq<Param>)
      requires 0 <= id < 0x1_0000
      requires forall i: nat :: i < |params| ==> ParamLengthsOk(params[i])
      modifies this
      ensures AllOk(ParamPart(id, params)) && sent == old(sent) + Emit(ParamPart(id, params))
    {
      SendEachParam(id, params);
      ParamPartOk(id, params);
      EmitOne(ParamRecs(id, params), Padded(PARAMS, id, []));
      SendParam(None, None, id);
    }

    method SendEachParam(id: int, params: seq<Param>)
      requires 0 <= id < 0x1_0000
      requires forall i: nat :: i < |params| ==> ParamLengthsOk(params[i])
      modifies this
      ensures AllOk(ParamRecs(id, params)) && sent == old(sent) + Emit(ParamRecs(id, params))
    {
      assert params[..0] == [];
      for i := 0 to |params|
        invariant AllOk(ParamRecs(id, params[..i]))
        invariant sent == old(sent) + Emit(ParamRecs(id, params[..i]))
      {
        SendNext(id, params[..i], params[i], old(sent));
        assert params[..i + 1] == params[..i] + [params[i]];
      }
      assert params[..|params|] == params;
    }

    /** One more parameter behind those sent. */
    method SendNext(id: int, ghost params: seq<Param>, p: Param, ghost base: seq<Byte>)
      requires 0 <= id < 0x1_0000 && ParamLengthsOk(p)
      requires AllOk(ParamRecs(id, params)) && sent == base + Emit(ParamRecs(id, params))
      modifies this
      ensures AllOk(ParamRecs(id, params + [p])) && sent == base + Emit(ParamRecs(id, params + [p]))
    {
      ParamNext(id, params, p, base);
      SendParam(Some(p.name), p.value, id);
    }

    lemma ParamNext(id: int, params: seq<Param>, p: Param, base: seq<Byte>)
      requires 0 <= id < 0x1_0000 && ParamLengthsOk(p) && AllOk(ParamRecs(id, params))
      ensures AllOk(ParamRecs(id, params + [p])) && AllOk(ParamRec(id, p))
      ensures base + Emit(ParamRecs(id, params + [p])) == base + Emit(ParamRecs(id, params)) + Emit(ParamRec(id, p))
      ensures Emit(ParamRec(id, p)) == if ParamRec(id, p) == [] then [] else RecBytes(ParamRec(id, p)[0])
    {
      ParamRecsAppend(id, params, p);
      var recs, next := ParamRecs(id, params), ParamRec(id, p);
      ParamRecOk(id, p);
      EmitAppend(recs, next);
      assert base + (Emit(recs) + Emit(next)) == base + Emit(recs) + Emit(next);
    }

    lemma ParamRecOk(id: int, p: Param)
      requires 0 <= id < 0x1_0000
      ensures AllOk(ParamRec(id, p))
      ensures Emit(ParamRec(id, p)) == if ParamRec(id, p) == [] then [] else RecBytes(ParamRec(id, p)[0])
    {
      if ParamRec(id, p) != [] {
        assert Emit(ParamRec(id, p)) == RecBytes(ParamRec(id, p)[0]) + Emit([]);
      }
    }

    lemma {:induction false} ParamRecsAppend(id: int, params: seq<Param>, p: Param)
      ensures ParamRecs(id, params + [p]) == ParamRecs(id, params) + ParamRec(id, p)
    {
      if params == [] {
        assert params + [p] == [p] && [p][1..] == [];
      } else {
        ParamRecsAppend(id, params[1..], p);
        assert (params + [p])[1..] == params[1..] + [p];
      }
    }
  }

  // ---------------------------------------------------------------------------------------------
  // The response
  // ---------------------------------------------------------------------------------------------

  datatype Response = Page(body: seq<Byte>) | GatewayTimeout

  /** What a response means: the output records up to the end record, whose own content is not read. */
  function ResponseOf(input: seq<Byte>, output: seq<Byte>): Response
    decreases |input|
  {
    if |input| < 8 then GatewayTimeout
    else if input[1] == END_REQUEST then Page(output)
    else
      var s := ReadRec(input);
      if s.None? then GatewayTimeout
      else ResponseOf(s.value.rest, if s.value.rec.kind == STDOUT then output + s.value.rec.content else output)
  }

  /** The contents of the output records, in order. */
  function Stdout(recs: seq<Rec>): seq<Byte> {
    if recs == [] then []
    else if recs[0].kind == STDOUT then recs[0].content + Stdout(recs[1..])
    else Stdout(recs[1..])
  }

  predicate NoEnd(recs: seq<Rec>) {
    forall i: nat :: i < |recs| ==> recs[i].kind != END_REQUEST
  }

  lemma {:induction false} ResponseAfter(recs: seq<Rec>, tail: seq<Byte>, output: seq<Byte>)
    requires AllOk(recs) && NoEnd(recs)
    ensures ResponseOf(Emit(recs) + tail, output) == ResponseOf(tail, output + Stdout(recs))
  {
    if recs == [] {
      assert Emit(recs) + tail == tail && output + Stdout(recs) == output;
    } else {
      var r, others := recs[0], Emit(recs[1..]) + tail;
      assert Emit(recs) + tail == RecBytes(r) + others;
      ReadBack(r, others);
      assert (RecBytes(r) + others)[1] == r.kind;
      var next := if r.kind == STDOUT then output + r.content else output;
      ResponseAfter(recs[1..], tail, next);
      assert next + Stdout(recs[1..]) == output + Stdout(recs);
    }
  }

  /** Whatever output, error and unknown records come before the end record, with any padding, the page
      is the output put together. */
  lemma ResponseComplete(recs: seq<Rec>, end: Rec, more: seq<Byte>)
    requires AllOk(recs) && NoEnd(recs) && RecOk(end) && end.kind == END_REQUEST
    ensures ResponseOf(Emit(recs) + (RecBytes(end) + more), []) == Page(Stdout(recs))
  {
    ResponseAfter(recs, RecBytes(end) + more, []);
    assert (RecBytes(end) + more)[1] == end.kind;
    assert [] + Stdout(recs) == Stdout(recs);
  }

  /** Input that stops before the end record gives no page. */
  lemma ResponseCut(recs: seq<Rec>, tail: seq<Byte>)
    requires AllOk(recs) && NoEnd(recs) && ReadRec(tail) == None && (|tail| >= 8 ==> tail[1] != END_REQUEST)
    ensures ResponseOf(Emit(recs) + tail, []) == GatewayTimeout
  {
    ResponseAfter(recs, tail, []);
  }

  /** The bytes still to come from the server. */
  class Input {
    var bytes: seq<Byte>

    /** Reads exactly so many bytes; nothing when the stream ends or times out first. */
    method RecvChunk(length: nat) returns (chunk: Option<seq<Byte>>)
      modifies this
      ensures |old(bytes)| < length ==> chunk == None
      ensures |old(bytes)| >= length ==> chunk == Some(old(bytes)[..length]) && bytes == old(bytes)[length..]
    {
      if |bytes| < length {
        bytes := [];
        return None;
      }
      chunk := Some(bytes[..length]);
      bytes := bytes[length..];
    }

    method Skip(length: nat) returns (ok: bool)
      modifies this
      ensures ok == (length <= |old(bytes)|)
      ensures ok ==> bytes == old(bytes)[length..]
    {
      if length <= 0 {
        return true;
      }
      var chunk := RecvChunk(length);
      ok := chunk.Some?;
    }

    /** The response loop. */
    method ReadResponse() returns (r: Response)
      modifies this
      ensures r == ResponseOf(old(bytes), [])
    {
      var output: seq<Byte> := [];
      while true
        invariant ResponseOf(bytes, output) == ResponseOf(old(bytes), [])
        decreases |bytes|
      {
        ghost var input := bytes;
        var header := RecvChunk(8);
        if header.None? {
          return GatewayTimeout;
        }
        var contentLength := Word(header.value[4], header.value[5]);
        var paddingLength := header.value[6];
        if header.value[1] == END_REQUEST {
          return Page(output);
        }
        if header.value[1] == STDOUT || header.value[1] == STDERR {
          var buffer := RecvChunk(contentLength);
          if buffer.None? {
            return GatewayTimeout;
          }
          var skipped := Skip(paddingLength);
          if !skipped {
            return GatewayTimeout;
          }
          if header.value[1] == STDOUT {
            output := output + buffer.value;
          }
        } else {
          var skipped := Skip(contentLength);
          if skipped {
            skipped := Skip(paddingLength);
          }
          if !skipped {
            return GatewayTimeout;
          }
        }
        assert bytes == input[8..][contentLength + paddingLength..];
      }
    }
  }
}
