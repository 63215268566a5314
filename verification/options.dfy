/**
 The libpq `options` value of a Postgres startup message (hostd/src/proxy/tcp.rs:231-322):
 splitting it into words the way the postmaster does, and taking the proxy token out of it.

 Text is a sequence of bytes. `Pieces` is the splitter written by recursion on the text:
 for each word the raw bytes it came from and its unescaped text.
 */
module Options {

  import opened Bytes
  import opened Wrappers

  const SPACE: byte := 32
  const SQUOTE: byte := 39
  const DQUOTE: byte := 34
  const BACKSLASH: byte := 92

  const DASH_C: seq<byte> := [45, 99]
  /** `tikovm_token=` */
  const TOKEN_EQ: seq<byte> := [116, 105, 107, 111, 118, 109, 95, 116, 111, 107, 101, 110, 61]

  datatype Piece = Piece(raw: seq<byte>, text: seq<byte>)

  datatype Scanned = Scanned(len: nat, text: seq<byte>)

  predicate IsSpace(b: byte) {
    b == 32 || b == 9 || b == 10 || b == 12 || b == 13
  }

  /** What the next one or two bytes of a word do: how many are taken, what they add, the quotes after them. */
  datatype Unit = Unit(take: nat, out: seq<byte>, sq: bool, dq: bool)

  function Next(s: seq<byte>, sq: bool, dq: bool): (u: Unit)
    requires s != []
    ensures 1 <= u.take <= 2 && u.take <= |s|
  {
    if s[0] == BACKSLASH && !sq && |s| > 1 then Unit(2, [s[1]], sq, dq)
    else if s[0] == SQUOTE && !dq then Unit(1, [], !sq, dq)
    else if s[0] == DQUOTE && !sq then Unit(1, [], sq, !dq)
    else Unit(1, [s[0]], sq, dq)
  }

  predicate WordEnds(s: seq<byte>, sq: bool, dq: bool) {
    s == [] || (!sq && !dq && IsSpace(s[0]))
  }

  /** Read one word from the front of `s`, inside single quotes, double quotes or neither. */
  function Scan(s: seq<byte>, sq: bool, dq: bool): (r: Scanned)
    ensures r.len <= |s| && (r.len < |s| ==> IsSpace(s[r.len]))
    decreases |s|
  {
    if WordEnds(s, sq, dq) then Scanned(0, [])
    else
      var u := Next(s, sq, dq);
      var r := Scan(s[u.take..], u.sq, u.dq);
      Scanned(u.take + r.len, u.out + r.text)
  }

  function Skip(s: seq<byte>): (k: nat)
    ensures k <= |s| && (k < |s| ==> !IsSpace(s[k]))
  {
    if s == [] || !IsSpace(s[0]) then 0 else 1 + Skip(s[1..])
  }

  function Pieces(s: seq<byte>): seq<Piece>
    decreases |s|
  {
    var k := Skip(s);
    if k == |s| then []
    else
      var front := s[k..];
      var r := Scan(front, false, false);
      assert r.len > 0;
      [Piece(front[..r.len], r.text)] + Pieces(front[r.len..])
  }

  /** The kept words' raw bytes, joined by single spaces. */
  function Join(ws: seq<Piece>): seq<byte> {
    if ws == [] then []
    else if |ws| == 1 then ws[0].raw
    else ws[0].raw + [SPACE] + Join(ws[1..])
  }

  function Select(ws: seq<Piece>, keep: seq<bool>): (r: seq<Piece>)
    requires |keep| == |ws|
    ensures |r| <= |ws|
  {
    if ws == [] then [] else (if keep[0] then [ws[0]] else []) + Select(ws[1..], keep[1..])
  }

  // ----- splitting what was joined -----

  /** A word's scan looks at the word only, as long as what follows it ends it. */
  lemma {:induction false} ScanLocal(s: seq<byte>, sq: bool, dq: bool, post: seq<byte>)
    requires post == [] || IsSpace(post[0])
    requires Scan(s, sq, dq).len == |s| ==> post == []
    ensures var n := Scan(s, sq, dq).len; Scan(s[..n] + post, sq, dq) == Scan(s, sq, dq)
    decreases |s|
  {
    hide *;
    var n := Scan(s, sq, dq).len;
    var t := s[..n] + post;
    ScanUnit(s, sq, dq);
    ScanUnit(t, sq, dq);
    if WordEnds(s, sq, dq) {
      assert t == post;
      EndsAt(s, post, sq, dq);
    } else {
      var u := Next(s, sq, dq);
      ScanLocal(s[u.take..], u.sq, u.dq, post);
      NextLocal(s, sq, dq, n, post);
    }
  }

  lemma EndsAt(s: seq<byte>, post: seq<byte>, sq: bool, dq: bool)
    requires WordEnds(s, sq, dq) && (post == [] || IsSpace(post[0]))
    requires s == [] ==> post == []
    ensures WordEnds(post, sq, dq)
  {
  }

  lemma NextLocal(s: seq<byte>, sq: bool, dq: bool, n: nat, post: seq<byte>)
    requires !WordEnds(s, sq, dq) && Next(s, sq, dq).take <= n <= |s|
    requires n == |s| ==> post == []
    ensures var t, u := s[..n] + post, Next(s, sq, dq);
            && !WordEnds(t, sq, dq) && Next(t, sq, dq) == u
            && t[u.take..] == s[u.take..][..n - u.take] + post
  {
    var t := s[..n] + post;
    assert t[0] == s[0] && (n > 1 ==> t[1] == s[1]);
    TakeDrop(s, n, post, Next(s, sq, dq).take);
  }

  lemma TakeDrop(s: seq<byte>, n: nat, post: seq<byte>, k: nat)
    requires k <= n <= |s|
    ensures (s[..n] + post)[k..] == s[k..][..n - k] + post
  {
    var a, b := (s[..n] + post)[k..], s[k..][..n - k] + post;
    forall i | 0 <= i < |a| ensures a[i] == b[i] {
      assert i < n - k ==> a[i] == s[k + i] == b[i];
    }
  }

  lemma ScanUnit(s: seq<byte>, sq: bool, dq: bool)
    ensures WordEnds(s, sq, dq) ==> Scan(s, sq, dq) == Scanned(0, [])
    ensures !WordEnds(s, sq, dq) ==>
              var u := Next(s, sq, dq);
              var r := Scan(s[u.take..], u.sq, u.dq);
              Scan(s, sq, dq) == Scanned(u.take + r.len, u.out + r.text)
  {
  }

  lemma PiecesFront(s: seq<byte>)
    requires s != [] && !IsSpace(s[0])
    ensures var r := Scan(s, false, false);
            0 < r.len && Pieces(s) == [Piece(s[..r.len], r.text)] + Pieces(s[r.len..])
  {
    assert Skip(s) == 0 && s[0..] == s;
    ScanUnit(s, false, false);
  }

  /** `front` starts with a word, and `rest` is what stands behind it. */
  predicate IsFront(front: seq<byte>, word: Piece, rest: seq<byte>) {
    && front != [] && !IsSpace(front[0])
    && var r := Scan(front, false, false);
       0 < r.len && word == Piece(front[..r.len], r.text) && rest == front[r.len..]
  }

  /** The first word of a text and the text behind it. */
  lemma FirstPiece(s: seq<byte>) returns (front: seq<byte>, word: Piece, rest: seq<byte>)
    requires Pieces(s) != []
    ensures front == s[Skip(s)..] && IsFront(front, word, rest)
    ensures Pieces(s) == [word] + Pieces(rest) && |rest| < |s|
    ensures rest != [] ==> IsSpace(rest[0])
  {
    var k := Skip(s);
    front := s[k..];
    assert front[0] == s[k];
    ScanUnit(front, false, false);
    hide Scan;
    var r := Scan(front, false, false);
    word, rest := Piece(front[..r.len], r.text), front[r.len..];
    assert rest != [] ==> rest[0] == front[r.len];
  }

  /**
   Any words of a text, kept in order and joined by single spaces, split again into words
   with the same texts, also when the text ends in an open quote or a backslash.
   */
  lemma {:induction false} SplitOfJoin(s: seq<byte>, keep: seq<bool>)
    requires |keep| == |Pieces(s)|
    ensures Pieces(Join(Select(Pieces(s), keep))) == Select(Pieces(s), keep)
    ensures var j := Join(Select(Pieces(s), keep)); j != [] ==> !IsSpace(j[0])
    decreases |s|
  {
    hide Skip, Scan, IsSpace, Pieces, Join;
    if Pieces(s) == [] {
      JoinNone();
    } else {
      var front, word, rest := FirstPiece(s);
      assert Pieces(s)[1..] == Pieces(rest);
      SplitOfJoin(rest, keep[1..]);
      var kept := Select(Pieces(rest), keep[1..]);
      assert Select(Pieces(s), keep) == (if keep[0] then [word] else []) + kept;
      if keep[0] {
        JoinNone();
        SplitJoinCons(front, kept);
      } else {
        assert [] + kept == kept;
      }
    }
  }

  lemma JoinNone()
    ensures Join([]) == [] && Pieces([]) == []
  {
  }

  /** The step for one kept word: `s` starts with it, `kept` are the words kept after it. */
  lemma SplitJoinCons(s: seq<byte>, kept: seq<Piece>)
    requires s != [] && !IsSpace(s[0])
    requires Pieces(Join(kept)) == kept
    requires Join(kept) != [] ==> !IsSpace(Join(kept)[0])
    requires Scan(s, false, false).len == |s| ==> kept == []
    ensures var r := Scan(s, false, false); var all := [Piece(s[..r.len], r.text)] + kept;
            Pieces(Join(all)) == all && Join(all) != [] && !IsSpace(Join(all)[0])
  {
    hide Scan, Pieces, Skip;
    var r := Scan(s, false, false);
    var word := Piece(s[..r.len], r.text);
    var all := [word] + kept;
    var post := if kept == [] then [] else [SPACE] + Join(kept);
    assert all[1..] == kept;
    var j := Join(all);
    assert j == s[..r.len] + post;
    PiecesFront(s);
    assert j[0] == s[0];
    ScanLocal(s, false, false, post);
    PiecesFront(j);
    assert j[..r.len] == word.raw && j[r.len..] == post;
    if kept != [] {
      SkipOne(Join(kept));
    } else {
      JoinNone();
    }
  }

  lemma SkipOne(s: seq<byte>)
    requires s != [] ==> !IsSpace(s[0])
    ensures Pieces([SPACE] + s) == Pieces(s)
  {
    var t := [SPACE] + s;
    assert t[1..] == s;
    assert Skip(t) == 1 && Skip(s) == 0;
    assert s[0..] == s;
  }

  // ----- taking the token settings out -----

  predicate IsPair(ws: seq<Piece>) {
    |ws| > 1 && ws[0].text == DASH_C && TOKEN_EQ <= ws[1].text
  }

  predicate IsGlued(w: Piece) {
    DASH_C + TOKEN_EQ <= w.text
  }

  datatype Stripped = Stripped(token: Option<seq<byte>>, keep: seq<bool>)

  /** Which words stay, and the value of the first token setting. */
  function Strip(ws: seq<Piece>): (r: Stripped)
    ensures |r.keep| == |ws| && (r.token.Some? <==> false in r.keep)
  {
    if ws == [] then Stripped(None, [])
    else if IsPair(ws) then
      Stripped(Some(ws[1].text[|TOKEN_EQ|..]), [false, false] + Strip(ws[2..]).keep)
    else if IsGlued(ws[0]) then
      Stripped(Some(ws[0].text[|DASH_C| + |TOKEN_EQ|..]), [false] + Strip(ws[1..]).keep)
    else
      var r := Strip(ws[1..]); Stripped(r.token, [true] + r.keep)
  }

  function Kept(ws: seq<Piece>): seq<Piece> {
    Select(ws, Strip(ws).keep)
  }

  /** What `extract_from_options` returns. */
  function Extract(options: seq<byte>): (Option<seq<byte>>, seq<byte>) {
    var r := Strip(Pieces(options));
    if r.token.None? then (None, options) else (r.token, Join(Kept(Pieces(options))))
  }

  /** The words behind the token settings at the front of `ws`. */
  function SkipSettings(ws: seq<Piece>): (r: seq<Piece>)
    ensures |r| <= |ws|
    ensures r != [] ==> !IsPair(r) && !IsGlued(r[0])
  {
    if ws == [] then []
    else if IsPair(ws) then SkipSettings(ws[2..])
    else if IsGlued(ws[0]) then SkipSettings(ws[1..])
    else ws
  }

  /**
   A bare `-c` that loses the settings between it and a word starting with `tikovm_token=`:
   removing them leaves a new setting behind.
   */
  predicate LeaksHere(ws: seq<Piece>) {
    && ws != [] && ws[0].text == DASH_C
    && var r := SkipSettings(ws[1..]);
       |r| < |ws| - 1 && r != [] && TOKEN_EQ <= r[0].text
  }

  predicate Leaky(ws: seq<Piece>) {
    ws != [] && (LeaksHere(ws) || Leaky(ws[1..]))
  }

  lemma {:induction false} KeptBehindSettings(ws: seq<Piece>)
    ensures Kept(ws) == Kept(SkipSettings(ws))
    ensures SkipSettings(ws) != [] ==> Kept(ws) != [] && Kept(ws)[0] == SkipSettings(ws)[0]
    ensures SkipSettings(ws) == [] ==> Kept(ws) == []
  {
    if ws == [] {
    } else if IsPair(ws) {
      KeptPair(ws);
      KeptBehindSettings(ws[2..]);
    } else if IsGlued(ws[0]) {
      KeptOne(ws);
      KeptBehindSettings(ws[1..]);
    } else {
      KeptOne(ws);
    }
  }

  lemma KeptPair(ws: seq<Piece>)
    requires IsPair(ws)
    ensures Kept(ws) == Kept(ws[2..])
  {
    var keep := Strip(ws).keep;
    assert keep[1..][1..] == Strip(ws[2..]).keep && ws[1..][1..] == ws[2..];
    assert Select(ws[1..], keep[1..]) == Select(ws[2..], keep[2..]);
  }

  lemma KeptOne(ws: seq<Piece>)
    requires ws != [] && !IsPair(ws)
    ensures Kept(ws) == (if IsGlued(ws[0]) then [] else [ws[0]]) + Kept(ws[1..])
  {
    assert Strip(ws).keep[1..] == Strip(ws[1..]).keep;
  }

  /** Stripping what was kept finds a setting exactly when the words leak. */
  lemma {:induction false} StripAgain(ws: seq<Piece>)
    ensures Strip(Kept(ws)).token.Some? <==> Leaky(ws)
  {
    if ws == [] {
    } else if IsPair(ws) {
      KeptPair(ws);
      StripAgain(ws[2..]);
      assert ws[1..][1..] == ws[2..] && ws[1].text[0] == TOKEN_EQ[0];
      assert SkipSettings(ws[1..]) == ws[1..];
      assert !LeaksHere(ws) && !LeaksHere(ws[1..]);
    } else {
      KeptOne(ws);
      StripAgain(ws[1..]);
      if IsGlued(ws[0]) {
        assert ws[0].text != DASH_C;
        assert [] + Kept(ws[1..]) == Kept(ws[1..]);
      } else {
        KeptBehindSettings(ws[1..]);
        ShorterIsSkipped(ws[1..]);
        StripHead(ws[0], Kept(ws[1..]));
      }
    }
  }

  lemma ShorterIsSkipped(ws: seq<Piece>)
    ensures |SkipSettings(ws)| == |ws| ==> SkipSettings(ws) == ws
  {
  }

  lemma StripHead(w: Piece, ws: seq<Piece>)
    requires !IsGlued(w)
    ensures Strip([w] + ws).token.Some? <==>
            (w.text == DASH_C && ws != [] && TOKEN_EQ <= ws[0].text) || Strip(ws).token.Some?
  {
    var all := [w] + ws;
    assert all[1..] == ws;
    if IsPair(all) { assert all[1] == ws[0]; }
  }

  /** No `-c` directly in front of a word starting with `-c`: then nothing leaks. */
  lemma {:induction false} NoDashCPairsNoLeak(ws: seq<Piece>)
    requires forall i :: 0 <= i < |ws| - 1 && ws[i].text == DASH_C ==> !(DASH_C <= ws[i + 1].text)
    ensures !Leaky(ws)
  {
    if ws != [] {
      NoDashCPairsNoLeak(ws[1..]);
      if ws[0].text == DASH_C && |ws| > 1 {
        assert !IsPair(ws[1..]) && !IsGlued(ws[1]);
      }
    }
  }

  /** Extraction run on its own result finds nothing exactly when the words of the input do not leak. */
  lemma ExtractTwice(options: seq<byte>)
    ensures var (token, rest) := Extract(options);
            && (token.None? ==> rest == options)
            && (token.Some? ==> Pieces(rest) == Kept(Pieces(options)))
            && (token.Some? && Leaky(Pieces(options)) ==> Extract(rest).0.Some?)
            && (token.None? || !Leaky(Pieces(options)) ==> Extract(rest) == (None, rest))
  {
    var ws := Pieces(options);
    SplitOfJoin(options, Strip(ws).keep);
    StripAgain(ws);
  }

  // ----- plain words, and the leak in a concrete text -----

  predicate Ordinary(b: byte) {
    !IsSpace(b) && b != SQUOTE && b != DQUOTE && b != BACKSLASH
  }

  predicate Plain(w: seq<byte>) {
    forall i :: 0 <= i < |w| ==> Ordinary(w[i])
  }

  lemma {:induction false} ScanPlain(w: seq<byte>, post: seq<byte>)
    requires Plain(w) && (post == [] || IsSpace(post[0]))
    ensures Scan(w + post, false, false) == Scanned(|w|, w)
  {
    var s := w + post;
    ScanUnit(s, false, false);
    hide Scan;
    if w == [] {
      assert s == post;
    } else {
      ScanPlain(w[1..], post);
      assert s[1..] == w[1..] + post && s[0] == w[0];
      assert Next(s, false, false) == Unit(1, [w[0]], false, false);
      assert [w[0]] + w[1..] == w;
    }
  }

  /** Words without quotes, backslashes or spaces are split back as they are. */
  lemma {:induction false} PlainWordsSplit(ws: seq<Piece>)
    requires forall i :: 0 <= i < |ws| ==> Plain(ws[i].raw) && ws[i].raw != [] && ws[i].text == ws[i].raw
    ensures Pieces(Join(ws)) == ws
    ensures Join(ws) != [] ==> !IsSpace(Join(ws)[0])
  {
    hide Pieces, Scan, Join, IsSpace;
    JoinNone();
    if ws != [] {
      PlainWordsSplit(ws[1..]);
      var w := ws[0].raw;
      var post := if |ws| == 1 then [] else [SPACE];
      assert post == [] || IsSpace(post[0]) by { SpaceIsSpace(); }
      ScanPlain(w, post);
      var s := w + post;
      assert s[..|w|] == w && s[0] == w[0] && Ordinary(w[0]);
      SplitJoinCons(s, ws[1..]);
      assert ws == [ws[0]] + ws[1..];
    }
  }

  lemma SpaceIsSpace()
    ensures IsSpace(SPACE)
  {
  }

  const TOKEN_A: seq<byte> := TOKEN_EQ + [65]
  const TOKEN_B: seq<byte> := TOKEN_EQ + [66]

  /** `-c -c tikovm_token=A tikovm_token=B` */
  const LEAKING: seq<byte> := DASH_C + [SPACE] + (DASH_C + [SPACE] + (TOKEN_A + [SPACE] + TOKEN_B))

  function PlainPiece(w: seq<byte>): Piece {
    Piece(w, w)
  }

  lemma LeakingWords()
    ensures var c, a, b := PlainPiece(DASH_C), PlainPiece(TOKEN_A), PlainPiece(TOKEN_B);
            Pieces(LEAKING) == [c, c, a, b] && Join([c, b]) == DASH_C + [SPACE] + TOKEN_B
  {
    var c, a, b := PlainPiece(DASH_C), PlainPiece(TOKEN_A), PlainPiece(TOKEN_B);
    var ws := [c, c, a, b];
    JoinTwo(c, b);
    JoinTwo(a, b);
    assert [c, a, b][1..] == [a, b] && ws[1..] == [c, a, b];
    assert Join([c, a, b]) == DASH_C + [SPACE] + Join([a, b]);
    assert Join(ws) == DASH_C + [SPACE] + Join([c, a, b]);
    hide Pieces, Join;
    assert Join(ws) == LEAKING;
    PlainWordsSplit(ws);
  }

  lemma JoinTwo(a: Piece, b: Piece)
    ensures Join([a, b]) == a.raw + [SPACE] + b.raw
  {
    assert [a, b][1..] == [b] && [b][1..] == [];
  }

  /** The first `-c` stays in front of what the removed setting separated it from. */
  lemma LeakingStrip(c: Piece, a: Piece, b: Piece)
    requires c.text == DASH_C && a.text == TOKEN_A && b.text == TOKEN_B
    ensures Kept([c, c, a, b]) == [c, b] && Strip([c, c, a, b]).token == Some([65]) && Strip([c, b]).token == Some([66])
  {
    var ws, tail := [c, c, a, b], [c, a, b];
    assert |DASH_C + TOKEN_EQ| > |c.text| && (DASH_C + TOKEN_EQ)[0] != b.text[0];
    assert !IsPair(ws) && !IsGlued(c) && IsPair(tail) && !IsPair([b]) && !IsGlued(b) && IsPair([c, b]);
    assert ws[1..] == tail && tail[2..] == [b] && [b][1..] == [];
    KeptOne(ws);
    KeptPair(tail);
    KeptOne([b]);
    assert Kept([]) == [];
    assert a.text[|TOKEN_EQ|..] == [65] && b.text[|TOKEN_EQ|..] == [66];
  }

  /** Extraction returns token `A` and leaves `-c tikovm_token=B`, a complete setting, behind. */
  lemma LeakExample()
    ensures Extract(LEAKING) == (Some([65]), DASH_C + [SPACE] + TOKEN_B)
    ensures Extract(Extract(LEAKING).1).0 == Some([66])
  {
    LeakingWords();
    LeakingStrip(PlainPiece(DASH_C), PlainPiece(TOKEN_A), PlainPiece(TOKEN_B));
    hide Kept, Strip, Pieces, Join;
    ExtractTwice(LEAKING);
  }

  // ----- size and contents of what is left -----

  /** What is left is never longer than the text, and shorter once a word is gone. */
  lemma {:induction false} JoinIsShorter(s: seq<byte>, keep: seq<bool>)
    requires |keep| == |Pieces(s)|
    ensures |Join(Select(Pieces(s), keep))| + Skip(s) <= |s|
    ensures false in keep ==> |Join(Select(Pieces(s), keep))| + Skip(s) < |s|
    ensures 0 !in s ==> 0 !in Join(Select(Pieces(s), keep))
    decreases |s|
  {
    hide Scan, Pieces;
    if Pieces(s) != [] {
      var front, word, rest := FirstPiece(s);
      assert Pieces(s)[1..] == Pieces(rest);
      JoinIsShorter(rest, keep[1..]);
      assert false in keep ==> !keep[0] || false in keep[1..];
      assert rest != [] ==> Skip(rest) >= 1;
      var kept := Select(Pieces(rest), keep[1..]);
      assert 0 !in s ==> 0 !in word.raw && 0 !in rest;
      if keep[0] {
        assert Select(Pieces(s), keep)[1..] == kept;
        JoinNone();
      } else {
        assert [] + kept == kept;
      }
    }
  }
}
