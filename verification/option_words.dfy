/**
 What the splitter and the extraction make of a text, said from the writer's side: words are written
 with bare bytes, backslashes and quotes, between runs of white space (hostd/src/proxy/tcp.rs:231-322).
 White space is the bytes 9, 10, 12, 13 and 32; the quotes are 39 and 34, and the backslash is 92.
 */
module OptionWords {

  import opened Bytes
  import opened Options
  import opened Wrappers

  /** A byte between double quotes, with or without a backslash. */
  datatype Inner = Inner(escaped: bool, b: byte)

  /** A part of a written word. */
  datatype Part = Bare(b: byte) | Escaped(b: byte) | Single(s: seq<byte>) | Double(t: seq<Inner>)

  type Word = seq<Part>

  predicate White(b: byte) {
    b in {9, 10, 12, 13, 32}
  }

  predicate Proper(p: Part) {
    match p
    case Bare(b) => b !in {9, 10, 12, 13, 32, 34, 39, 92}
    case Escaped(_) => true
    case Single(s) => 39 !in s
    case Double(t) => forall c :: c in t ==> c.escaped || c.b !in {34, 92}
  }

  /** A word has at least one part, all of them proper. */
  predicate ProperWord(w: Word) {
    w != [] && forall p :: p in w ==> Proper(p)
  }

  function InnerWritten(t: seq<Inner>): seq<byte> {
    if t == [] then [] else (if t[0].escaped then [92, t[0].b] else [t[0].b]) + InnerWritten(t[1..])
  }

  function InnerMeant(t: seq<Inner>): seq<byte> {
    if t == [] then [] else [t[0].b] + InnerMeant(t[1..])
  }

  function PartWritten(p: Part): seq<byte> {
    match p
    case Bare(b) => [b]
    case Escaped(b) => [92, b]
    case Single(s) => [39] + s + [39]
    case Double(t) => [34] + InnerWritten(t) + [34]
  }

  function PartMeant(p: Part): seq<byte> {
    match p
    case Bare(b) => [b]
    case Escaped(b) => [b]
    case Single(s) => s
    case Double(t) => InnerMeant(t)
  }

  function Written(w: Word): seq<byte> {
    if w == [] then [] else PartWritten(w[0]) + Written(w[1..])
  }

  function Meant(w: Word): seq<byte> {
    if w == [] then [] else PartMeant(w[0]) + Meant(w[1..])
  }

  // ----- one word -----

  /** `s` in front of `rest` adds `out` to the word, and leaves the quotes as they were. */
  ghost predicate Adds(s: seq<byte>, out: seq<byte>, rest: seq<byte>, sq: bool, dq: bool, sq': bool, dq': bool) {
    var r := Scan(rest, sq', dq');
    Scan(s + rest, sq, dq) == Scanned(|s| + r.len, out + r.text)
  }

  lemma AddsUnit(s: seq<byte>, out: seq<byte>, rest: seq<byte>, sq: bool, dq: bool, sq': bool, dq': bool)
    requires s != [] && !WordEnds(s + rest, sq, dq) && Next(s + rest, sq, dq) == Unit(|s|, out, sq', dq')
    ensures Adds(s, out, rest, sq, dq, sq', dq')
  {
    ScanUnit(s + rest, sq, dq);
    assert (s + rest)[|s|..] == rest;
    hide Scan, Next, WordEnds;
  }

  lemma AddsThen(a: seq<byte>, x: seq<byte>, b: seq<byte>, y: seq<byte>, rest: seq<byte>,
                 q1: bool, d1: bool, q2: bool, d2: bool, q3: bool, d3: bool)
    requires Adds(a, x, b + rest, q1, d1, q2, d2) && Adds(b, y, rest, q2, d2, q3, d3)
    ensures Adds(a + b, x + y, rest, q1, d1, q3, d3)
  {
    hide Scan;
    assert a + b + rest == a + (b + rest);
    var r := Scan(rest, q3, d3);
    assert x + (y + r.text) == x + y + r.text;
  }

  lemma AddsNothing(rest: seq<byte>, sq: bool, dq: bool)
    ensures Adds([], [], rest, sq, dq, sq, dq)
  {
    hide Scan;
    assert [] + rest == rest;
    var text := Scan(rest, sq, dq).text;
    assert [] + text == text;
  }

  lemma {:induction false} SingleAdds(s: seq<byte>, rest: seq<byte>)
    requires 39 !in s
    ensures Adds(s, s, rest, true, false, true, false)
  {
    if s == [] {
      AddsNothing(rest, true, false);
    } else {
      assert s[0] in s && forall b :: b in s[1..] ==> b in s;
      SingleAdds(s[1..], rest);
      AddsUnit([s[0]], [s[0]], s[1..] + rest, true, false, true, false);
      AddsThen([s[0]], [s[0]], s[1..], s[1..], rest, true, false, true, false, true, false);
      assert [s[0]] + s[1..] == s;
    }
  }

  lemma {:induction false} DoubleAdds(t: seq<Inner>, rest: seq<byte>)
    requires rest != [] && forall c :: c in t ==> c.escaped || c.b !in {34, 92}
    ensures Adds(InnerWritten(t), InnerMeant(t), rest, false, true, false, true)
  {
    if t == [] {
      AddsNothing(rest, false, true);
    } else {
      assert t[0] in t && forall c :: c in t[1..] ==> c in t;
      DoubleAdds(t[1..], rest);
      var one := if t[0].escaped then [92, t[0].b] else [t[0].b];
      var more := InnerWritten(t[1..]) + rest;
      assert (one + more)[0] == one[0] && (t[0].escaped ==> (one + more)[1] == t[0].b);
      AddsUnit(one, [t[0].b], more, false, true, false, true);
      AddsThen(one, [t[0].b], InnerWritten(t[1..]), InnerMeant(t[1..]), rest, false, true, false, true, false, true);
    }
  }

  lemma PartAdds(p: Part, rest: seq<byte>)
    requires Proper(p)
    ensures Adds(PartWritten(p), PartMeant(p), rest, false, false, false, false)
  {
    hide Scan, Adds;
    match p {
      case Bare(b) =>
        assert ([b] + rest)[0] == b;
        AddsUnit([b], [b], rest, false, false, false, false);
      case Escaped(b) =>
        assert ([92, b] + rest)[0] == 92 && ([92, b] + rest)[1] == b;
        AddsUnit([92, b], [b], rest, false, false, false, false);
      case Single(s) =>
        AddsUnit([39], [], s + ([39] + rest), false, false, true, false);
        SingleAdds(s, [39] + rest);
        AddsUnit([39], [], rest, true, false, false, false);
        AddsThen([39], [], s, s, [39] + rest, false, false, true, false, true, false);
        AddsThen([39] + s, [] + s, [39], [], rest, false, false, true, false, false, false);
        assert [] + s + [] == s;
      case Double(t) =>
        var w, m := InnerWritten(t), InnerMeant(t);
        AddsUnit([34], [], w + ([34] + rest), false, false, false, true);
        DoubleAdds(t, [34] + rest);
        AddsUnit([34], [], rest, false, true, false, false);
        AddsThen([34], [], w, m, [34] + rest, false, false, false, true, false, true);
        AddsThen([34] + w, [] + m, [34], [], rest, false, false, false, true, false, false);
        assert [] + m + [] == m;
    }
  }

  lemma {:induction false} WordAdds(w: Word, rest: seq<byte>)
    requires forall p :: p in w ==> Proper(p)
    ensures Adds(Written(w), Meant(w), rest, false, false, false, false)
  {
    hide Adds, Proper, PartWritten, PartMeant;
    if w == [] {
      AddsNothing(rest, false, false);
    } else {
      assert w[0] in w && forall p :: p in w[1..] ==> p in w;
      WordAdds(w[1..], rest);
      PartAdds(w[0], Written(w[1..]) + rest);
      AddsThen(PartWritten(w[0]), PartMeant(w[0]), Written(w[1..]), Meant(w[1..]), rest,
               false, false, false, false, false, false);
    }
  }

  /** A written word is scanned as what it means, up to the white space behind it. */
  lemma WordScans(w: Word, rest: seq<byte>)
    requires ProperWord(w) && (rest == [] || White(rest[0]))
    ensures Scan(Written(w) + rest, false, false) == Scanned(|Written(w)|, Meant(w))
    ensures Written(w) != [] && !White(Written(w)[0])
  {
    WordAdds(w, rest);
    ScanUnit(rest, false, false);
    assert w[0] in w;
    hide Scan;
    assert Meant(w) + [] == Meant(w);
  }

  // ----- the words of a text -----

  /** The words with a gap before each and one behind the last. */
  function Spread(gaps: seq<seq<byte>>, words: seq<Word>): seq<byte>
    requires |gaps| == |words| + 1
  {
    if words == [] then gaps[0] else gaps[0] + Written(words[0]) + Spread(gaps[1..], words[1..])
  }

  /** Gaps are white space, and there is some between two words. */
  predicate ProperGaps(gaps: seq<seq<byte>>) {
    && (forall k, i :: 0 <= k < |gaps| && 0 <= i < |gaps[k]| ==> White(gaps[k][i]))
    && (forall k :: 0 < k < |gaps| - 1 ==> gaps[k] != [])
  }

  function PiecesOf(words: seq<Word>): (ws: seq<Piece>)
    ensures |ws| == |words|
    ensures forall k :: 0 <= k < |words| ==> ws[k] == Piece(Written(words[k]), Meant(words[k]))
  {
    if words == [] then [] else [Piece(Written(words[0]), Meant(words[0]))] + PiecesOf(words[1..])
  }

  lemma {:induction false} GapSkips(gap: seq<byte>, s: seq<byte>)
    requires forall i :: 0 <= i < |gap| ==> White(gap[i])
    ensures Pieces(gap + s) == Pieces(s)
  {
    if gap == [] {
      assert gap + s == s;
    } else {
      GapSkips(gap[1..], s);
      SkipWhite(gap[0], gap[1..] + s);
      hide *;
      assert gap == [gap[0]] + gap[1..];
      Assoc([gap[0]], gap[1..], s);
    }
  }

  lemma SkipWhite(b: byte, s: seq<byte>)
    requires White(b)
    ensures Pieces([b] + s) == Pieces(s)
  {
    var t := [b] + s;
    assert t[1..] == s && IsSpace(t[0]);
    var k := Skip(s);
    assert Skip(t) == k + 1;
    assert t[k + 1..] == s[k..];
    hide Skip, Scan, IsSpace;
  }

  lemma WordFirst(w: Word, rest: seq<byte>)
    requires ProperWord(w) && (rest == [] || White(rest[0]))
    ensures Pieces(Written(w) + rest) == [Piece(Written(w), Meant(w))] + Pieces(rest)
  {
    WordScans(w, rest);
    var s := Written(w) + rest;
    assert s[0] == Written(w)[0] && !IsSpace(s[0]);
    hide Written, Meant, Scan, Pieces, IsSpace;
    PiecesFront(s);
    assert s[..|Written(w)|] == Written(w) && s[|Written(w)|..] == rest;
  }

  /** Words between gaps are split into exactly those words, each with what it means. */
  lemma {:induction false} SpreadSplits(gaps: seq<seq<byte>>, words: seq<Word>)
    requires |gaps| == |words| + 1 && ProperGaps(gaps) && forall w :: w in words ==> ProperWord(w)
    ensures Pieces(Spread(gaps, words)) == PiecesOf(words)
    ensures |gaps[0]| > 0 && White(gaps[0][0]) ==> Spread(gaps, words)[0] == gaps[0][0]
    ensures words == [] ==> Spread(gaps, words) == gaps[0]
    decreases |words|
  {
    hide Pieces, Written, Meant, ProperWord;
    if words == [] {
      NoWords();
      GapSkips(gaps[0], []);
      assert gaps[0] + [] == gaps[0];
    } else {
      var rest := Spread(gaps[1..], words[1..]);
      assert words[0] in words && forall w :: w in words[1..] ==> w in words;
      GapsBehind(gaps);
      SpreadSplits(gaps[1..], words[1..]);
      assert rest == [] || White(rest[0]);
      WordFirst(words[0], rest);
      GapSkips(gaps[0], Written(words[0]) + rest);
      assert gaps[0] + (Written(words[0]) + rest) == Spread(gaps, words);
    }
  }

  lemma NoWords()
    ensures Pieces([]) == []
  {
  }

  lemma GapsBehind(gaps: seq<seq<byte>>)
    requires |gaps| > 1 && ProperGaps(gaps)
    ensures ProperGaps(gaps[1..])
    ensures |gaps| > 2 ==> gaps[1] != []
    ensures gaps[1] == [] || White(gaps[1][0])
  {
    forall k, i | 0 <= k < |gaps[1..]| && 0 <= i < |gaps[1..][k]| ensures White(gaps[1..][k][i]) {
      assert White(gaps[k + 1][i]);
    }
    forall k | 0 < k < |gaps[1..]| - 1 ensures gaps[1..][k] != [] {
      assert gaps[k + 1] != [];
    }
  }

  // ----- the settings among the words -----

  /** `-c` */
  const DASH: seq<byte> := [45, 99]
  /** `tikovm_token=` */
  const TOKEN: seq<byte> := [116, 105, 107, 111, 118, 109, 95, 116, 111, 107, 101, 110, 61]

  /** No word means `-c`, or starts with `-ctikovm_token=`. */
  predicate Others(words: seq<Word>) {
    forall w :: w in words ==> Meant(w) != DASH && !(DASH + TOKEN <= Meant(w))
  }

  /** The words as they were written, with single spaces between them. */
  function Spaced(words: seq<Word>): seq<byte> {
    if words == [] then []
    else if |words| == 1 then Written(words[0])
    else Written(words[0]) + [32] + Spaced(words[1..])
  }

  function Trues(n: nat): seq<bool> {
    seq(n, _ => true)
  }

  /** The setting `-c tikovm_token=v` in two words, or `-ctikovm_token=v` in one. */
  predicate Sets(words: seq<Word>, v: seq<byte>) {
    || (|words| == 2 && Meant(words[0]) == DASH && Meant(words[1]) == TOKEN + v)
    || (|words| == 1 && Meant(words[0]) == DASH + TOKEN + v)
  }

  lemma Assoc<T>(a: seq<T>, b: seq<T>, c: seq<T>)
    ensures a + (b + c) == a + b + c
  {
  }

  lemma Nothing<T>(a: seq<T>)
    ensures [] + a == a && a + [] == a
  {
  }

  lemma TailOf<T>(a: seq<T>, b: seq<T>)
    requires a != []
    ensures (a + b)[0] == a[0] && (a + b)[1..] == a[1..] + b
  {
  }

  lemma {:induction false} StripOthers(before: seq<Word>, ws: seq<Piece>)
    requires Others(before)
    ensures Strip(PiecesOf(before) + ws)
            == Stripped(Strip(ws).token, Trues(|before|) + Strip(ws).keep)
  {
    if before == [] {
      assert PiecesOf(before) + ws == ws;
      assert Trues(0) + Strip(ws).keep == Strip(ws).keep;
    } else {
      var pieces := PiecesOf(before);
      assert before[0] in before && forall w :: w in before[1..] ==> w in before;
      assert pieces[0].text == Meant(before[0]) && pieces[1..] == PiecesOf(before[1..]);
      StripOthers(before[1..], ws);
      TailOf(pieces, ws);
      OtherStays(pieces + ws);
      assert [true] + Trues(|before| - 1) == Trues(|before|);
      hide *;
      Assoc([true], Trues(|before| - 1), Strip(ws).keep);
    }
  }

  lemma OtherStays(ws: seq<Piece>)
    requires ws != [] && ws[0].text != DASH && !(DASH + TOKEN <= ws[0].text)
    ensures Strip(ws) == Stripped(Strip(ws[1..]).token, [true] + Strip(ws[1..]).keep)
  {
    assert !IsPair(ws) && !IsGlued(ws[0]);
  }

  lemma StripSetting(setting: seq<Word>, v: seq<byte>, ws: seq<Piece>)
    requires Sets(setting, v)
    ensures Strip(PiecesOf(setting) + ws).token == Some(v)
    ensures Strip(PiecesOf(setting) + ws).keep == seq(|setting|, _ => false) + Strip(ws).keep
  {
    var all := PiecesOf(setting) + ws;
    assert all[|setting|..] == ws;
    if |setting| == 2 {
      assert all[0].text == DASH && all[1].text == TOKEN + v && TOKEN <= TOKEN + v;
      assert (TOKEN + v)[|TOKEN|..] == v;
      assert seq(2, _ => false) == [false, false];
    } else {
      assert all[0].text == DASH + TOKEN + v && DASH + TOKEN <= DASH + TOKEN + v;
      assert !IsPair(all);
      assert (DASH + TOKEN + v)[|DASH| + |TOKEN|..] == v;
      assert seq(1, _ => false) == [false];
    }
  }

  lemma {:induction false} SelectParts(a: seq<Piece>, x: seq<bool>, b: seq<Piece>, y: seq<bool>)
    requires |a| == |x| && |b| == |y|
    ensures Select(a + b, x + y) == Select(a, x) + Select(b, y)
  {
    if a == [] {
      assert a + b == b && x + y == y;
    } else {
      var first := if x[0] then [a[0]] else [];
      SelectParts(a[1..], x[1..], b, y);
      TailOf(a, b);
      TailOf(x, y);
      assert Select(a + b, x + y) == first + Select(a[1..] + b, x[1..] + y);
      assert Select(a, x) == first + Select(a[1..], x[1..]);
      hide *;
      Assoc(first, Select(a[1..], x[1..]), Select(b, y));
    }
  }

  lemma {:induction false} SelectConst(a: seq<Piece>, x: seq<bool>, kept: bool)
    requires |a| == |x| && forall i :: 0 <= i < |x| ==> x[i] == kept
    ensures Select(a, x) == if kept then a else []
  {
    if a != [] {
      SelectConst(a[1..], x[1..], kept);
    }
  }

  lemma {:induction false} SpacedIsJoin(words: seq<Word>)
    ensures Join(PiecesOf(words)) == Spaced(words)
  {
    if |words| > 1 {
      assert PiecesOf(words)[1..] == PiecesOf(words[1..]);
      SpacedIsJoin(words[1..]);
    }
  }

  lemma {:induction false} PiecesOfAppend(a: seq<Word>, b: seq<Word>)
    ensures PiecesOf(a + b) == PiecesOf(a) + PiecesOf(b)
  {
    if a == [] {
      Nothing(b);
      Nothing(PiecesOf(b));
    } else {
      var first := [Piece(Written(a[0]), Meant(a[0]))];
      PiecesOfAppend(a[1..], b);
      TailOf(a, b);
      assert PiecesOf(a + b) == first + PiecesOf(a[1..] + b) && PiecesOf(a) == first + PiecesOf(a[1..]);
      hide *;
      Assoc(first, PiecesOf(a[1..]), PiecesOf(b));
    }
  }

  lemma NothingStripped(words: seq<Word>)
    requires Others(words)
    ensures Strip(PiecesOf(words)) == Stripped(None, Trues(|words|))
  {
    StripOthers(words, []);
    assert PiecesOf(words) + [] == PiecesOf(words) && Trues(|words|) + [] == Trues(|words|);
  }

  lemma KeptAround(before: seq<Word>, setting: seq<Word>, after: seq<Word>)
    ensures var ws := PiecesOf(before) + (PiecesOf(setting) + PiecesOf(after));
      var keep := Trues(|before|) + (seq(|setting|, _ => false) + Trues(|after|));
      Select(ws, keep) == PiecesOf(before + after)
  {
    var falses := seq(|setting|, _ => false);
    SelectParts(PiecesOf(before), Trues(|before|), PiecesOf(setting) + PiecesOf(after), falses + Trues(|after|));
    SelectParts(PiecesOf(setting), falses, PiecesOf(after), Trues(|after|));
    SelectConst(PiecesOf(before), Trues(|before|), true);
    SelectConst(PiecesOf(setting), falses, false);
    SelectConst(PiecesOf(after), Trues(|after|), true);
    PiecesOfAppend(before, after);
    assert [] + PiecesOf(after) == PiecesOf(after);
  }

  /**
   The first setting among the words is the token, whatever follows it; without a further one the other
   words are forwarded as they were written, with single spaces between them.
   */
  lemma FirstSettingWins(gaps: seq<seq<byte>>, before: seq<Word>, setting: seq<Word>, v: seq<byte>, after: seq<Word>)
    requires var words := before + setting + after;
      |gaps| == |words| + 1 && ProperGaps(gaps) && forall w :: w in words ==> ProperWord(w)
    requires Others(before) && Sets(setting, v)
    ensures var (token, rest) := Extract(Spread(gaps, before + setting + after));
      token == Some(v) && (Others(after) ==> rest == Spaced(before + after))
  {
    var words := before + setting + after;
    SpreadSplits(gaps, words);
    PiecesOfAppend(before + setting, after);
    PiecesOfAppend(before, setting);
    var tail := PiecesOf(setting) + PiecesOf(after);
    Assoc(PiecesOf(before), PiecesOf(setting), PiecesOf(after));
    StripOthers(before, tail);
    StripSetting(setting, v, PiecesOf(after));
    if Others(after) {
      NothingStripped(after);
      KeptAround(before, setting, after);
      SpacedIsJoin(before + after);
    }
    hide PiecesOf, Pieces, Strip, Spread, Select, Join, Spaced, Sets, Others, ProperGaps, ProperWord;
  }

  /** Without a setting nothing is found, and the text stays as it is. */
  lemma NoSetting(gaps: seq<seq<byte>>, words: seq<Word>)
    requires |gaps| == |words| + 1 && ProperGaps(gaps) && forall w :: w in words ==> ProperWord(w)
    requires Others(words)
    ensures Extract(Spread(gaps, words)) == (None, Spread(gaps, words))
  {
    SpreadSplits(gaps, words);
    NothingStripped(words);
  }

  // ----- in literal bytes -----

  function Bares(s: seq<byte>): (w: Word)
    ensures |w| == |s| && forall i :: 0 <= i < |s| ==> w[i] == Bare(s[i])
  {
    if s == [] then [] else [Bare(s[0])] + Bares(s[1..])
  }

  lemma {:induction false} BaresWritten(s: seq<byte>)
    ensures Written(Bares(s)) == s && Meant(Bares(s)) == s
  {
    if s != [] {
      BaresWritten(s[1..]);
      assert Bares(s)[1..] == Bares(s[1..]);
      assert [s[0]] + s[1..] == s;
    }
  }

  lemma {:induction false} WrittenAppend(a: Word, b: Word)
    ensures Written(a + b) == Written(a) + Written(b)
  {
    if a == [] {
      assert a + b == b && [] + Written(b) == Written(b);
    } else {
      WrittenAppend(a[1..], b);
      TailOf(a, b);
      assert Written(a + b) == PartWritten(a[0]) + Written(a[1..] + b);
      assert Written(a) == PartWritten(a[0]) + Written(a[1..]);
      hide *;
      Assoc(PartWritten(a[0]), Written(a[1..]), Written(b));
    }
  }

  lemma {:induction false} MeantAppend(a: Word, b: Word)
    ensures Meant(a + b) == Meant(a) + Meant(b)
  {
    if a == [] {
      assert a + b == b && [] + Meant(b) == Meant(b);
    } else {
      MeantAppend(a[1..], b);
      TailOf(a, b);
      assert Meant(a + b) == PartMeant(a[0]) + Meant(a[1..] + b);
      assert Meant(a) == PartMeant(a[0]) + Meant(a[1..]);
      hide *;
      Assoc(PartMeant(a[0]), Meant(a[1..]), Meant(b));
    }
  }

  /** `name` as it is, and then some parts. */
  lemma NamedWord(name: seq<byte>, value: Word) returns (w: Word)
    requires name != [] && forall b :: b in name ==> b !in {9, 10, 12, 13, 32, 34, 39, 92}
    requires forall p :: p in value ==> Proper(p)
    ensures ProperWord(w) && Written(w) == name + Written(value) && Meant(w) == name + Meant(value)
  {
    w := Bares(name) + value;
    BaresWritten(name);
    WrittenAppend(Bares(name), value);
    MeantAppend(Bares(name), value);
    hide Written, Meant;
    forall p | p in w ensures Proper(p) {
      if p !in value {
        var i :| 0 <= i < |Bares(name)| && Bares(name)[i] == p;
        assert name[i] in name;
      }
    }
  }

  const NoGap: seq<byte> := []

  lemma OneWord(w: Word)
    ensures Spread([NoGap, NoGap], [w]) == Written(w)
  {
    assert [NoGap, NoGap][1..] == [NoGap] && [w][1..] == [] && Spread([NoGap], []) == [];
    assert NoGap + Written(w) + [] == Written(w);
  }

  lemma TwoWords(v: Word, sep: seq<byte>, w: Word)
    ensures Spread([NoGap, sep, NoGap], [v, w]) == Written(v) + sep + Written(w)
  {
    assert [NoGap, sep, NoGap][1..] == [sep, NoGap] && [v, w][1..] == [w];
    assert [sep, NoGap][1..] == [NoGap] && [w][1..] == [] && Spread([NoGap], []) == NoGap;
    assert Spread([sep, NoGap], [w]) == sep + Written(w) + NoGap;
    assert Spread([NoGap, sep, NoGap], [v, w]) == NoGap + Written(v) + Spread([sep, NoGap], [w]);
    hide *;
    Nothing(Written(v));
    Nothing(sep + Written(w));
    Assoc(Written(v), sep, Written(w));
  }

  lemma PairSets(dash: Word, token: Word, v: seq<byte>)
    requires ProperWord(dash) && ProperWord(token) && Meant(dash) == DASH && Meant(token) == TOKEN + v
    ensures Sets([dash, token], v) && forall w :: w in [dash, token] ==> ProperWord(w)
  {
  }

  lemma FewGaps(sep: byte)
    requires White(sep)
    ensures ProperGaps([NoGap, [sep], NoGap]) && ProperGaps([NoGap, NoGap])
  {
  }

  /** A setting that is the whole text. */
  lemma SettingAlone(gaps: seq<seq<byte>>, setting: seq<Word>, v: seq<byte>)
    requires |gaps| == |setting| + 1 && ProperGaps(gaps) && forall w :: w in setting ==> ProperWord(w)
    requires Sets(setting, v)
    ensures Extract(Spread(gaps, setting)) == (Some(v), [])
  {
    hide Extract, Spread, ProperGaps, ProperWord, Sets;
    Nothing(setting);
    assert Spaced([] + []) == [];
    FirstSettingWins(gaps, [], setting, v, []);
  }

  lemma DashWord() returns (w: Word)
    ensures ProperWord(w) && Written(w) == DASH && Meant(w) == DASH
  {
    w := NamedWord(DASH, []);
    Nothing(DASH);
    assert Written([]) == [] && Meant([]) == [];
  }

  lemma TokenWord(value: Word) returns (w: Word)
    requires forall p :: p in value ==> Proper(p)
    ensures ProperWord(w) && Written(w) == TOKEN + Written(value) && Meant(w) == TOKEN + Meant(value)
  {
    w := NamedWord(TOKEN, value);
  }

  /** `-c`, white space, `tikovm_token=` and any proper way of writing `v`: the token is `v`, and nothing is left. */
  lemma PairExtracts(sep: byte, value: Word)
    requires sep in {9, 10, 12, 13, 32} && forall p :: p in value ==> Proper(p)
    ensures Extract(DASH + [sep] + TOKEN + Written(value)) == (Some(Meant(value)), [])
  {
    var dash := DashWord();
    var token := TokenWord(value);
    FewGaps(sep);
    hide *;
    TwoWords(dash, [sep], token);
    Assoc(DASH + [sep], TOKEN, Written(value));
    PairSets(dash, token, Meant(value));
    SettingAlone([NoGap, [sep], NoGap], [dash, token], Meant(value));
  }

  /** The glued form `-ctikovm_token=`. */
  lemma GluedExtracts(value: Word)
    requires forall p :: p in value ==> Proper(p)
    ensures Extract(DASH + TOKEN + Written(value)) == (Some(Meant(value)), [])
  {
    var glued := NamedWord(DASH + TOKEN, value);
    OneWord(glued);
    FewGaps(32);
    hide Extract, Written, Meant, Spread, ProperWord, ProperGaps;
    SettingAlone([NoGap, NoGap], [glued], Meant(value));
  }

  /** A value with none of the special bytes, as it is; a JSON web token is one. */
  lemma BareValue(sep: byte, v: seq<byte>)
    requires sep in {9, 10, 12, 13, 32} && forall b :: b in v ==> b !in {9, 10, 12, 13, 32, 34, 39, 92}
    ensures Extract(DASH + [sep] + TOKEN + v) == (Some(v), [])
    ensures Extract(DASH + TOKEN + v) == (Some(v), [])
  {
    BaresWritten(v);
    assert forall i :: 0 <= i < |v| ==> v[i] in v && Bares(v)[i] == Bare(v[i]);
    PairExtracts(sep, Bares(v));
    GluedExtracts(Bares(v));
  }

  lemma OnePart(p: Part)
    ensures Written([p]) == PartWritten(p) && Meant([p]) == PartMeant(p)
  {
    assert [p][1..] == [];
    Nothing(PartWritten(p));
    Nothing(PartMeant(p));
  }

  /** A value between single quotes, which may hold anything but a single quote. */
  lemma SingleQuotedValue(sep: byte, v: seq<byte>)
    requires sep in {9, 10, 12, 13, 32} && 39 !in v
    ensures Extract(DASH + [sep] + TOKEN + ([39] + v + [39])) == (Some(v), [])
    ensures Extract(DASH + TOKEN + ([39] + v + [39])) == (Some(v), [])
  {
    var w := [Single(v)];
    OnePart(Single(v));
    PairExtracts(sep, w);
    GluedExtracts(w);
  }

  /** A value between double quotes, with a backslash before each byte that is `escaped`. */
  lemma DoubleQuotedValue(sep: byte, t: seq<Inner>)
    requires sep in {9, 10, 12, 13, 32} && forall c :: c in t ==> c.escaped || c.b !in {34, 92}
    ensures Extract(DASH + [sep] + TOKEN + ([34] + InnerWritten(t) + [34])) == (Some(InnerMeant(t)), [])
    ensures Extract(DASH + TOKEN + ([34] + InnerWritten(t) + [34])) == (Some(InnerMeant(t)), [])
  {
    var w := [Double(t)];
    OnePart(Double(t));
    PairExtracts(sep, w);
    GluedExtracts(w);
  }

  /** Any value at all, with a backslash before each of its bytes. */
  function Backslashed(v: seq<byte>): seq<byte> {
    if v == [] then [] else [92, v[0]] + Backslashed(v[1..])
  }

  lemma {:induction false} BackslashedWord(v: seq<byte>) returns (w: Word)
    ensures Written(w) == Backslashed(v) && Meant(w) == v && forall p :: p in w ==> Proper(p)
  {
    if v == [] {
      w := [];
    } else {
      var rest := BackslashedWord(v[1..]);
      w := [Escaped(v[0])] + rest;
      assert w[1..] == rest;
    }
  }

  lemma BackslashedValue(sep: byte, v: seq<byte>)
    requires sep in {9, 10, 12, 13, 32}
    ensures Extract(DASH + [sep] + TOKEN + Backslashed(v)) == (Some(v), [])
    ensures Extract(DASH + TOKEN + Backslashed(v)) == (Some(v), [])
  {
    var w := BackslashedWord(v);
    PairExtracts(sep, w);
    GluedExtracts(w);
  }
}
