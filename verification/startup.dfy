/**
 The Postgres startup message at the proxy (hostd/src/proxy/tcp.rs): sniffing it, parsing its
 parameters, taking the proxy token out of them, and building the message to forward.

 The layout is section 55.7 (Message Formats) of the PostgreSQL 16 documentation. Parameter
 text is kept as bytes, which for valid UTF-8 is what the source's string decoding gives.
 */
module Startup {

  import opened Bytes
  import opened OptionLoops
  import opened Options
  import opened Wrappers

  /** `tikovm_token` */
  const TOKEN_PARAM: seq<byte> := [116, 105, 107, 111, 118, 109, 95, 116, 111, 107, 101, 110]
  /** `options` */
  const OPTIONS_PARAM: seq<byte> := [111, 112, 116, 105, 111, 110, 115]

  const PROTOCOL_V3: nat := 196_608
  const SSL_REQUEST: nat := 80_877_103
  const GSSENC_REQUEST: nat := 80_877_104
  const CANCEL_REQUEST: nat := 80_877_102
  const MAX_STARTUP_FRAME: nat := 16384
  const U32: nat := 0x1_0000_0000

  datatype Param = Param(key: seq<byte>, value: seq<byte>)

  function FromBe(b: seq<byte>): nat
    requires |b| == 4
  {
    b[0] as nat * 0x100_0000 + b[1] as nat * 0x1_0000 + b[2] as nat * 0x100 + b[3] as nat
  }

  /** `(n as u32).to_be_bytes()`, wrapping like the cast. */
  function ToBe(n: nat): (b: seq<byte>)
    ensures |b| == 4
  {
    var m := n % U32;
    [(m / 0x100_0000) as byte, (m / 0x1_0000 % 0x100) as byte, (m / 0x100 % 0x100) as byte, (m % 0x100) as byte]
  }

  lemma BeRoundTrip(n: nat)
    requires n < U32
    ensures FromBe(ToBe(n)) == n
  {
    assert n % U32 == n;
    var high, low := n / 0x1_0000, n % 0x1_0000;
    TwoBytes(high);
    TwoBytes(low);
    HighBytes(n);
    LowBytes(n);
  }

  lemma TwoBytes(m: nat)
    ensures m / 0x100 * 0x100 + m % 0x100 == m
  {
  }

  lemma HighBytes(n: nat)
    ensures n / 0x100_0000 == n / 0x1_0000 / 0x100
  {
  }

  lemma LowBytes(n: nat)
    ensures n / 0x100 % 0x100 == n % 0x1_0000 / 0x100 && n % 0x100 == n % 0x1_0000 % 0x100
  {
    var q, r := n / 0x1_0000, n % 0x1_0000;
    var h, l := r / 0x100, r % 0x100;
    assert n == (q * 0x100 + h) * 0x100 + l;
    ByteSplit(q * 0x100 + h, l, n);
    ByteSplit(q, h, q * 0x100 + h);
  }

  lemma ByteSplit(high: nat, low: nat, n: nat)
    requires low < 0x100 && n == high * 0x100 + low
    ensures n / 0x100 == high && n % 0x100 == low
  {
  }

  predicate LooksLikePostgres(prefix: seq<byte>) {
    && |prefix| >= 8
    && 8 <= FromBe(prefix[0..4]) <= MAX_STARTUP_FRAME
    && FromBe(prefix[4..8]) in {PROTOCOL_V3, SSL_REQUEST, GSSENC_REQUEST, CANCEL_REQUEST}
  }

  /**
   In bytes: a length from 8 to 16384, highest byte first, and one of four codes. So no text that
   starts with a letter, as an HTTP request does, is taken for Postgres.
   */
  lemma SniffedIff(prefix: seq<byte>)
    requires |prefix| >= 8
    ensures LooksLikePostgres(prefix) <==>
      && prefix[0] == 0 && prefix[1] == 0 && 8 <= prefix[2] as nat * 256 + prefix[3] as nat <= 16384
      && prefix[4..8] in {[0, 3, 0, 0], [4, 210, 22, 47], [4, 210, 22, 48], [4, 210, 22, 46]}
  {
    var len, code := prefix[0..4], prefix[4..8];
    assert len == [prefix[0], prefix[1], prefix[2], prefix[3]];
    CodeIff(code, [0, 3, 0, 0], PROTOCOL_V3);
    CodeIff(code, [4, 210, 22, 47], SSL_REQUEST);
    CodeIff(code, [4, 210, 22, 48], GSSENC_REQUEST);
    CodeIff(code, [4, 210, 22, 46], CANCEL_REQUEST);
  }

  lemma CodeIff(code: seq<byte>, bytes: seq<byte>, n: nat)
    requires |code| == 4 && |bytes| == 4 && FromBe(bytes) == n
    ensures FromBe(code) == n <==> code == bytes
  {
    if FromBe(code) == n {
      assert code[0] == bytes[0];
      assert code[1] == bytes[1];
      assert code[2] == bytes[2] && code[3] == bytes[3];
    }
  }

  /** What the negotiation loop hands on: a whole protocol 3.0 frame as `read_frame` reads it. */
  predicate AcceptedFrame(frame: seq<byte>) {
    LooksLikePostgres(frame) && FromBe(frame[0..4]) == |frame| && FromBe(frame[4..8]) == PROTOCOL_V3
  }

  // ----- parameters on the wire -----

  function Field(p: Param): seq<byte> {
    p.key + [0] + p.value + [0]
  }

  function Encode(ps: seq<Param>): seq<byte> {
    if ps == [] then [] else Field(ps[0]) + Encode(ps[1..])
  }

  /** The parameter lists the wire format can carry. */
  predicate Wireable(ps: seq<Param>) {
    forall i :: 0 <= i < |ps| ==> ps[i].key != [] && 0 !in ps[i].key && 0 !in ps[i].value
  }

  function NulAt(s: seq<byte>): (at: nat)
    ensures at <= |s| && 0 !in s[..at] && (at < |s| ==> s[at] == 0)
  {
    if s == [] || s[0] == 0 then 0 else
      var n := 1 + NulAt(s[1..]);
      assert s[..n] == [s[0]] + s[1..][..n - 1];
      n
  }

  /** One parameter and the bytes behind it, `None` when a NUL is missing. */
  datatype Taken = End | Cut | Got(param: Param, rest: seq<byte>)

  function TakeParam(s: seq<byte>): (r: Taken)
    ensures r.Got? ==> |r.rest| < |s|
  {
    var k := NulAt(s);
    if k == |s| then Cut
    else if k == 0 then End
    else
      var s1 := s[k + 1..];
      var v := NulAt(s1);
      if v == |s1| then Cut else Got(Param(s[..k], s1[..v]), s1[v + 1..])
  }

  function ParseParams(s: seq<byte>): Option<seq<Param>>
    decreases |s|
  {
    match TakeParam(s)
    case End => Some([])
    case Cut => None
    case Got(p, rest) =>
      Cons(p, ParseParams(rest))
  }

  lemma {:induction false} NulBehind(s: seq<byte>, rest: seq<byte>)
    requires 0 !in s
    ensures NulAt(s + [0] + rest) == |s|
  {
    var t := s + [0] + rest;
    if s != [] {
      assert t[0] == s[0] && s[0] in s;
      assert t[1..] == s[1..] + [0] + rest;
      NulBehind(s[1..], rest);
    }
  }

  lemma TakeEncoded(p: Param, rest: seq<byte>)
    requires p.key != [] && 0 !in p.key && 0 !in p.value
    ensures TakeParam(Field(p) + rest) == Got(p, rest)
  {
    hide NulAt;
    var s := Field(p) + rest;
    var s1 := p.value + [0] + rest;
    assert s == p.key + [0] + s1;
    NulBehind(p.key, s1);
    NulBehind(p.value, rest);
    assert s[|p.key| + 1..] == s1 && s1[|p.value| + 1..] == rest;
    assert s[..|p.key|] == p.key && s1[..|p.value|] == p.value;
  }

  lemma TakenIsEncoded(s: seq<byte>)
    ensures var t := TakeParam(s);
            && (t.End? ==> s != [] && s[0] == 0)
            && (t.Got? ==> s == Field(t.param) + t.rest
                           && t.param.key != [] && 0 !in t.param.key && 0 !in t.param.value)
  {
    hide NulAt;
    var k := NulAt(s);
    if 0 < k < |s| {
      var s1 := s[k + 1..];
      var v := NulAt(s1);
      assert s == s[..k] + [0] + s1;
      if v < |s1| {
        assert s1 == s1[..v] + [0] + s1[v + 1..];
      }
    }
  }

  lemma ParseStep(s: seq<byte>)
    ensures ParseParams(s) == match TakeParam(s)
                              case End => Some([])
                              case Cut => None
                              case Got(p, rest) => Cons(p, ParseParams(rest))
  {
  }

  function Cons(p: Param, tail: Option<seq<Param>>): Option<seq<Param>> {
    if tail.None? then None else Some([p] + tail.value)
  }

  lemma CatAssoc(a: seq<byte>, b: seq<byte>, junk: seq<byte>)
    ensures a + b + [0] + junk == a + (b + [0] + junk)
  {
  }

  /** Parsing gives back what was encoded, whatever follows the terminator. */
  lemma {:induction false} ParseEncoded(ps: seq<Param>, junk: seq<byte>)
    requires Wireable(ps)
    ensures ParseParams(Encode(ps) + [0] + junk) == Some(ps)
  {
    hide TakeParam, ParseParams, Field;
    var s := Encode(ps) + [0] + junk;
    ParseStep(s);
    if ps == [] {
      TerminatorEnds(junk);
      assert s == [0] + junk;
    } else {
      var rest := Encode(ps[1..]) + [0] + junk;
      ParseEncoded(ps[1..], junk);
      CatAssoc(Field(ps[0]), Encode(ps[1..]), junk);
      TakeEncoded(ps[0], rest);
      assert ps == [ps[0]] + ps[1..];
    }
  }

  lemma TerminatorEnds(junk: seq<byte>)
    ensures TakeParam([0] + junk) == End
  {
  }

  /** Conversely, what parses is such an encoding, so the parser accepts nothing else. */
  lemma {:induction false} ParsedIsEncoded(s: seq<byte>) returns (junk: seq<byte>)
    requires ParseParams(s).Some?
    ensures Wireable(ParseParams(s).value) && s == Encode(ParseParams(s).value) + [0] + junk
    decreases |s|
  {
    hide TakeParam, ParseParams, Field;
    ParseStep(s);
    TakenIsEncoded(s);
    match TakeParam(s) {
      case End =>
        junk := s[1..];
        assert s == [] + [0] + junk;
      case Got(p, rest) =>
        junk := ParsedIsEncoded(rest);
        var tail := ParseParams(rest).value;
        assert ([p] + tail)[1..] == tail;
        CatAssoc(Field(p), Encode(tail), junk);
    }
  }

  // ----- the two loops -----

  method ParseStartup(frame: seq<byte>) returns (r: Option<seq<Param>>)
    requires |frame| >= 8
    ensures r == ParseParams(frame[8..])
  {
    hide NulAt, ParseParams;
    var rest := frame[8..];
    var params: seq<Param> := [];
    assert ParseParams(rest).Some? ==> [] + ParseParams(rest).value == ParseParams(rest).value;
    while true
      invariant ParseParams(rest).None? ==> ParseParams(frame[8..]).None?
      invariant ParseParams(rest).Some? ==> ParseParams(frame[8..]) == Some(params + ParseParams(rest).value)
      decreases |rest|
    {
      ghost var s := rest;
      ParseStep(s);
      var nul := FindNul(rest);
      if nul == |rest| {
        return None;
      }
      var key := rest[..nul];
      rest := rest[nul + 1..];
      if key == [] {
        assert params + [] == params;
        return Some(params);
      }
      nul := FindNul(rest);
      if nul == |rest| {
        return None;
      }
      var value := rest[..nul];
      rest := rest[nul + 1..];
      assert TakeParam(s) == Got(Param(key, value), rest);
      ghost var t := ParseParams(rest);
      if t.Some? {
        assert params + ([Param(key, value)] + t.value) == params + [Param(key, value)] + t.value;
      }
      params := params + [Param(key, value)];
    }
  }

  /** `position` of the first NUL, the length when there is none. */
  method FindNul(s: seq<byte>) returns (i: nat)
    ensures i == NulAt(s)
  {
    i := 0;
    assert s[0..] == s;
    while i < |s| && s[i] != 0
      invariant i <= |s| && NulAt(s) == i + NulAt(s[i..])
    {
      assert s[i..][1..] == s[i + 1..] && s[i..][0] == s[i];
      i := i + 1;
    }
    assert i < |s| ==> s[i..][0] == 0;
  }

  method BuildStartup(params: seq<Param>) returns (frame: seq<byte>)
    ensures frame == Frame(params)
  {
    var body := ToBe(PROTOCOL_V3);
    for i := 0 to |params|
      invariant body == ToBe(PROTOCOL_V3) + Encode(params[..i])
    {
      EncodeSnoc(params[..i], params[i]);
      assert params[..i + 1] == params[..i] + [params[i]];
      body := body + params[i].key + [0] + params[i].value + [0];
      assert body == ToBe(PROTOCOL_V3) + (Encode(params[..i]) + Field(params[i]));
    }
    assert params[..|params|] == params;
    body := body + [0];
    frame := ToBe(|body| + 4) + body;
  }

  function Frame(params: seq<Param>): seq<byte> {
    var body := ToBe(PROTOCOL_V3) + Encode(params) + [0];
    ToBe(|body| + 4) + body
  }

  lemma {:induction false} EncodeSnoc(ps: seq<Param>, p: Param)
    ensures Encode(ps + [p]) == Encode(ps) + Field(p)
  {
    hide Field;
    if ps == [] {
      assert ps + [p] == [p] && [p][1..] == [];
      assert Encode([p]) == Field(p) + Encode([]);
    } else {
      EncodeSnoc(ps[1..], p);
      assert (ps + [p])[1..] == ps[1..] + [p];
    }
  }

  // ----- taking the token out -----

  datatype Extracted = Extracted(token: Option<seq<byte>>, forwarded: seq<Param>)

  /** What one parameter becomes: nothing, or one parameter; and the token it carries. */
  function Rewrite(p: Param): Extracted {
    if p.key == TOKEN_PARAM then Extracted(Some(p.value), [])
    else if p.key == OPTIONS_PARAM then
      var (token, rest) := Extract(p.value);
      if token.None? then Extracted(None, [p])
      else Extracted(token, if rest == [] then [] else [p.(value := rest)])
    else Extracted(None, [p])
  }

  /** The parameters in order, each rewritten; the last token wins. */
  function RewriteAll(ps: seq<Param>): Extracted {
    if ps == [] then Extracted(None, [])
    else
      var front, last := RewriteAll(ps[..|ps| - 1]), Rewrite(ps[|ps| - 1]);
      Extracted(if last.token.Some? then last.token else front.token, front.forwarded + last.forwarded)
  }

  // ----- what is taken out, and what is left -----

  /** The parameter is a token, or an `options` value with a token in it. */
  predicate Carries(p: Param) {
    p.key == TOKEN_PARAM || (p.key == OPTIONS_PARAM && Extract(p.value).0.Some?)
  }

  function Carried(p: Param): seq<byte>
    requires Carries(p)
  {
    if p.key == TOKEN_PARAM then p.value else Extract(p.value).0.value
  }

  /** What is left of a parameter that carries a token: the other settings of an `options` value, if any. */
  function Left(p: Param): seq<Param> {
    if p.key == TOKEN_PARAM || Extract(p.value).1 == [] then [] else [Param(p.key, Extract(p.value).1)]
  }

  /** The parameters that are neither a token nor `options`, in order. */
  function Others(ps: seq<Param>): seq<Param> {
    if ps == [] then []
    else
      var last := ps[|ps| - 1];
      Others(ps[..|ps| - 1]) + if last.key == TOKEN_PARAM || last.key == OPTIONS_PARAM then [] else [last]
  }

  ghost predicate NoneCarries(ps: seq<Param>) {
    forall i :: 0 <= i < |ps| ==> !Carries(ps[i])
  }

  ghost predicate NoTokenKey(ps: seq<Param>) {
    forall i :: 0 <= i < |ps| ==> ps[i].key != TOKEN_PARAM
  }

  lemma OthersAppend(a: seq<Param>, b: seq<Param>)
    ensures Others(a + b) == Others(a) + Others(b)
  {
    if b == [] {
      assert a + b == a && Others(a) + [] == Others(a);
    } else {
      var n := |b| - 1;
      var last := if b[n].key == TOKEN_PARAM || b[n].key == OPTIONS_PARAM then [] else [b[n]];
      OthersAppend(a, b[..n]);
      assert (a + b)[..|a| + n] == a + b[..n] && (a + b)[|a| + n] == b[n];
      assert Others(a + b) == Others(a + b[..n]) + last && Others(b) == Others(b[..n]) + last;
      hide *;
      assert Others(a) + Others(b[..n]) + last == Others(a) + (Others(b[..n]) + last);
    }
  }

  lemma RewriteOne(p: Param)
    ensures Others(Rewrite(p).forwarded) == Others([p]) && NoTokenKey(Rewrite(p).forwarded)
    ensures Carries(p) ==> Rewrite(p) == Extracted(Some(Carried(p)), Left(p))
    ensures !Carries(p) ==> Rewrite(p) == Extracted(None, [p])
  {
    hide Extract;
    assert forall q: Param {:trigger Others([q])} :: [q][..0] == [];
  }

  /** Of all parameters but those that are a token or `options` nothing is dropped, added, changed or moved. */
  lemma {:induction false} OthersForwarded(ps: seq<Param>)
    ensures Others(RewriteAll(ps).forwarded) == Others(ps) && NoTokenKey(RewriteAll(ps).forwarded)
  {
    if ps != [] {
      var front, last := ps[..|ps| - 1], ps[|ps| - 1];
      assert ps == front + [last];
      OthersForwarded(front);
      RewriteOne(last);
      OthersAppend(front, [last]);
      OthersAppend(RewriteAll(front).forwarded, Rewrite(last).forwarded);
      hide Rewrite, Others;
    }
  }

  /** Parameters that carry no token are forwarded as they are. */
  lemma {:induction false} NoneCarriesKeeps(ps: seq<Param>)
    ensures NoneCarries(ps) ==> RewriteAll(ps) == Extracted(None, ps)
    ensures RewriteAll(ps).token.None? <==> NoneCarries(ps)
  {
    if ps != [] {
      var front, last := ps[..|ps| - 1], ps[|ps| - 1];
      assert ps == front + [last];
      NoneCarriesKeeps(front);
      RewriteOne(last);
      hide Rewrite, Carries, Carried, Left;
      assert NoneCarries(ps) <==> NoneCarries(front) && !Carries(last);
    }
  }

  /** The token is the last one carried; and around a single one the parameters are as they were. */
  lemma LastCarrier(a: seq<Param>, p: Param, b: seq<Param>)
    requires Carries(p) && NoneCarries(b)
    ensures RewriteAll(a + [p] + b).token == Some(Carried(p))
    ensures NoneCarries(a) ==> RewriteAll(a + [p] + b).forwarded == a + Left(p) + b
  {
    RewriteAppend(a + [p], b);
    RewriteAppend(a, [p]);
    RewriteSmall([p]);
    RewriteOne(p);
    NoneCarriesKeeps(a);
    NoneCarriesKeeps(b);
    hide Rewrite, RewriteAll, Carries, NoneCarries, Carried, Left;
  }

  lemma LastCarriers(ps: seq<Param>)
    ensures forall i :: 0 <= i < |ps| && Carries(ps[i]) && NoneCarries(ps[i + 1..]) ==>
      RewriteAll(ps).token == Some(Carried(ps[i]))
      && (NoneCarries(ps[..i]) ==> RewriteAll(ps).forwarded == ps[..i] + Left(ps[i]) + ps[i + 1..])
  {
    hide RewriteAll, Carries, Carried, Left, NoneCarries;
    forall i | 0 <= i < |ps| && Carries(ps[i]) && NoneCarries(ps[i + 1..])
      ensures RewriteAll(ps).token == Some(Carried(ps[i]))
      ensures NoneCarries(ps[..i]) ==> RewriteAll(ps).forwarded == ps[..i] + Left(ps[i]) + ps[i + 1..]
    {
      assert ps == ps[..i] + [ps[i]] + ps[i + 1..];
      LastCarrier(ps[..i], ps[i], ps[i + 1..]);
    }
  }

  /**
   `extract_token`: the parameters that are neither a token nor `options` are forwarded in order and
   unchanged, and no token is. The last token counts; a single one leaves everything around it as it was.
   */
  method ExtractToken(params: seq<Param>) returns (token: Option<seq<byte>>, forwarded: seq<Param>)
    ensures Extracted(token, forwarded) == RewriteAll(params)
    ensures Others(forwarded) == Others(params)
    ensures forall i :: 0 <= i < |forwarded| ==> forwarded[i].key != TOKEN_PARAM
    ensures token.None? <==> NoneCarries(params)
    ensures token.None? ==> forwarded == params
    ensures forall i :: 0 <= i < |params| && Carries(params[i]) && NoneCarries(params[i + 1..]) ==>
              token == Some(Carried(params[i]))
              && (NoneCarries(params[..i]) ==> forwarded == params[..i] + Left(params[i]) + params[i + 1..])
  {
    hide Extract;
    token, forwarded := None, [];
    for i := 0 to |params|
      invariant Extracted(token, forwarded) == RewriteAll(params[..i])
    {
      assert params[..i + 1][..i] == params[..i];
      hide Others, Carries, NoneCarries;
      var p := params[i];
      if p.key == TOKEN_PARAM {
        token := Some(p.value);
      } else if p.key == OPTIONS_PARAM {
        var fromOptions, rest := ExtractFromOptions(p.value);
        match fromOptions {
          case Some(found) =>
            token := Some(found);
            if rest != [] {
              forwarded := forwarded + [Param(p.key, rest)];
            }
          case None =>
            forwarded := forwarded + [p];
        }
      } else {
        forwarded := forwarded + [p];
      }
    }
    assert params[..|params|] == params;
    OthersForwarded(params);
    NoneCarriesKeeps(params);
    LastCarriers(params);
  }

  function Weight(p: Param): nat {
    |p.key| + |p.value| + 2
  }

  lemma EncodeOne(p: Param)
    ensures Encode([p]) == Field(p) && |Encode([p])| == Weight(p) && Encode([]) == []
  {
    assert [p][1..] == [];
  }

  /** Once a token is found, the rest is shorter, and a part of the text. */
  lemma ExtractIsShorter(s: seq<byte>)
    requires 0 !in s
    ensures var (token, rest) := Extract(s); 0 !in rest && (token.Some? ==> |rest| < |s|)
  {
    var keep := Strip(Pieces(s)).keep;
    JoinIsShorter(s, keep);
    hide Pieces, Strip, Join, Select;
  }

  lemma RewriteFacts(p: Param)
    requires p.key != [] && 0 !in p.key && 0 !in p.value
    ensures var r := Rewrite(p);
            && Wireable(r.forwarded)
            && |Encode(r.forwarded)| <= Weight(p)
            && (r.token.Some? ==> |Encode(r.forwarded)| < Weight(p))
  {
    ExtractIsShorter(p.value);
    EncodeOne(p);
    EncodeOne(p.(value := Extract(p.value).1));
    hide Extract, Encode, Field;
  }

  lemma {:induction false} EncodeAppend(a: seq<Param>, b: seq<Param>)
    ensures Encode(a + b) == Encode(a) + Encode(b)
  {
    hide Field;
    if a == [] {
      assert a + b == b;
    } else {
      EncodeAppend(a[1..], b);
      assert (a + b)[0] == a[0] && (a + b)[1..] == a[1..] + b;
      assert Encode(a + b) == Field(a[0]) + Encode(a[1..] + b);
      assert Encode(a) == Field(a[0]) + Encode(a[1..]);
      hide *;
    }
  }

  lemma {:induction false} RewriteAllFacts(ps: seq<Param>)
    requires Wireable(ps)
    ensures var r := RewriteAll(ps);
            && Wireable(r.forwarded)
            && |Encode(r.forwarded)| <= |Encode(ps)|
            && (r.token.Some? ==> |Encode(r.forwarded)| < |Encode(ps)|)
  {
    if ps != [] {
      var front, last := ps[..|ps| - 1], ps[|ps| - 1];
      RewriteAllFacts(front);
      hide Rewrite;
      RewriteFacts(last);
      assert ps == front + [last];
      EncodeSnoc(front, last);
      EncodeAppend(RewriteAll(front).forwarded, Rewrite(last).forwarded);
    }
  }

  /** An `options` value whose removed settings leave a new one behind. */
  predicate Leaks(p: Param) {
    p.key == OPTIONS_PARAM && Leaky(Pieces(p.value))
  }

  lemma {:induction false} SelectAll(ws: seq<Piece>, keep: seq<bool>)
    requires |keep| == |ws| && false !in keep
    ensures Select(ws, keep) == ws
  {
    if ws != [] {
      assert keep[0] in keep;
      SelectAll(ws[1..], keep[1..]);
    }
  }

  /** One parameter, rewritten twice. */
  lemma RewriteTwice(p: Param)
    ensures var again := RewriteAll(Rewrite(p).forwarded);
            && (again.token.Some? <==> Leaks(p))
            && (!Leaks(p) ==> again.forwarded == Rewrite(p).forwarded)
  {
    var f := Rewrite(p).forwarded;
    RewriteSmall(f);
    if p.key == OPTIONS_PARAM {
      var ws := Pieces(p.value);
      ExtractTwice(p.value);
      StripAgain(ws);
      if Strip(ws).token.None? {
        SelectAll(ws, Strip(ws).keep);
      }
    }
  }

  lemma RewriteSmall(ps: seq<Param>)
    ensures ps == [] ==> RewriteAll(ps) == Extracted(None, [])
    ensures |ps| == 1 ==> RewriteAll(ps) == Rewrite(ps[0])
  {
    if |ps| == 1 {
      assert ps[..0] == [];
    }
  }

  lemma {:induction false} RewriteAppend(a: seq<Param>, b: seq<Param>)
    ensures var r, ra, rb := RewriteAll(a + b), RewriteAll(a), RewriteAll(b);
            && r.forwarded == ra.forwarded + rb.forwarded
            && r.token == if rb.token.Some? then rb.token else ra.token
  {
    hide Rewrite;
    if b == [] {
      assert a + b == a;
    } else {
      var n := |b| - 1;
      RewriteAppend(a, b[..n]);
      assert (a + b)[..|a| + n] == a + b[..n] && (a + b)[|a| + n] == b[n];
    }
  }

  /**
   The forwarded parameters still carry a token exactly when some `options` value leaks;
   otherwise rewriting them again changes nothing.
   */
  lemma {:induction false} RewriteAllTwice(ps: seq<Param>)
    ensures var again := RewriteAll(RewriteAll(ps).forwarded);
            && (again.token.Some? <==> exists i :: 0 <= i < |ps| && Leaks(ps[i]))
            && (again.token.None? ==> again.forwarded == RewriteAll(ps).forwarded)
  {
    hide Rewrite, Leaks;
    if ps != [] {
      var n := |ps| - 1;
      var front := ps[..n];
      RewriteAllTwice(front);
      RewriteTwice(ps[n]);
      RewriteAppend(RewriteAll(front).forwarded, Rewrite(ps[n]).forwarded);
      if exists i :: 0 <= i < |ps| && Leaks(ps[i]) {
        var i :| 0 <= i < |ps| && Leaks(ps[i]);
        assert i < n ==> Leaks(front[i]);
      }
      if exists i :: 0 <= i < n && Leaks(front[i]) {
        var i :| 0 <= i < n && Leaks(front[i]);
        assert Leaks(ps[i]);
      }
    }
  }

  // ----- whole frames -----

  /** The protocol of a frame is the bytes 0, 3, 0, 0, and a NUL ends it. */
  lemma FrameEnds(ps: seq<Param>)
    ensures Frame(ps)[4..] == [0, 3, 0, 0] + Encode(ps) + [0]
  {
    assert ToBe(PROTOCOL_V3) == [0, 3, 0, 0];
    hide Encode, ToBe;
  }

  /** One parameter more puts its key, a NUL, its value and a NUL behind the others. */
  lemma FrameMore(ps: seq<Param>, p: Param)
    ensures Encode([]) == [] && Encode(ps + [p]) == Encode(ps) + (p.key + [0] + p.value + [0])
  {
    EncodeSnoc(ps, p);
    assert Field(p) == p.key + [0] + p.value + [0];
    hide Encode, Field;
  }

  /** Building and parsing are inverse on every list the wire can carry. */
  lemma BuildThenParse(ps: seq<Param>)
    requires Wireable(ps)
    ensures |Frame(ps)| >= 9 && ParseParams(Frame(ps)[8..]) == Some(ps)
  {
    ParseEncoded(ps, []);
    assert Frame(ps)[8..] == Encode(ps) + [0] + [];
  }

  /**
   For every accepted frame that carries a token, the frame built from the forwarded
   parameters is strictly shorter, carries its own length, is sniffed as Postgres again, is
   again an accepted frame, and parses to exactly those parameters.
   */
  lemma RewrittenFrame(frame: seq<byte>, ps: seq<Param>)
    requires AcceptedFrame(frame) && ParseParams(frame[8..]) == Some(ps) && RewriteAll(ps).token.Some?
    ensures var out := Frame(RewriteAll(ps).forwarded);
            && 8 < |out| < |frame|
            && FromBe(out[0..4]) == |out|
            && AcceptedFrame(out)
            && ParseParams(out[8..]) == Some(RewriteAll(ps).forwarded)
  {
    hide RewriteAll, ParseParams, Encode;
    var junk := ParsedIsEncoded(frame[8..]);
    RewriteAllFacts(ps);
    var fwd := RewriteAll(ps).forwarded;
    BuildThenParse(fwd);
    var out := Frame(fwd);
    assert |out| == 4 + 4 + |Encode(fwd)| + 1;
    assert out[0..4] == ToBe(|out|) && out[4..8] == ToBe(PROTOCOL_V3);
    BeRoundTrip(|out|);
    BeRoundTrip(PROTOCOL_V3);
  }
}
