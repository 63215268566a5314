/**
 The loops of hostd/src/proxy/tcp.rs:235-322: the tokenizer that walks an index over the
 text, and the extraction that collects the indices of the words to drop.
 */
module OptionLoops {

  import opened Bytes
  import opened Options
  import opened Wrappers

  /** A word's span in the text and its unescaped text. */
  datatype Word = Word(start: nat, end: nat, text: seq<byte>)

  predicate SpansOf(options: seq<byte>, words: seq<Word>) {
    && (forall j :: 0 <= j < |words| ==> words[j].start < words[j].end <= |options|)
    && (forall j, k :: 0 <= j < k < |words| ==> words[j].end <= words[k].start)
  }

  function PiecesAt(options: seq<byte>, words: seq<Word>): seq<Piece>
    requires SpansOf(options, words)
  {
    seq(|words|, j requires 0 <= j < |words| => Piece(options[words[j].start..words[j].end], words[j].text))
  }

  /** The words of `options`: in order, apart, and with the spans and texts `Pieces` gives them. */
  method SplitOpts(options: seq<byte>) returns (words: seq<Word>)
    ensures SpansOf(options, words) && PiecesAt(options, words) == Pieces(options)
  {
    hide Pieces, Skip, Scan, IsSpace;
    words := [];
    var i := 0;
    assert options[0..] == options;
    while i < |options|
      invariant i <= |options|
      invariant SpansOf(options, words)
      invariant forall j :: 0 <= j < |words| ==> words[j].end <= i
      invariant PiecesAt(options, words) + Pieces(options[i..]) == Pieces(options)
    {
      i := SkipSpaces(options, i);
      if i >= |options| {
        break;
      }
      var start := i;
      var text;
      i, text := ScanWord(options, start);
      PieceAt(options, start);
      ghost var before := PiecesAt(options, words);
      words := words + [Word(start, i, text)];
      assert PiecesAt(options, words) == before + [Piece(options[start..i], text)];
    }
    NoPieces(options, i);
  }

  lemma NoPieces(options: seq<byte>, i: nat)
    requires i == |options|
    ensures Pieces(options[i..]) == []
  {
  }

  /** A word starting at `start`: its piece, and the rest of the text behind it. */
  lemma PieceAt(options: seq<byte>, start: nat)
    requires start < |options| && !IsSpace(options[start])
    ensures var r := Scan(options[start..], false, false);
            && 0 < r.len
            && Pieces(options[start..])
               == [Piece(options[start..start + r.len], r.text)] + Pieces(options[start + r.len..])
  {
    hide *;
    var s := options[start..];
    assert s[0] == options[start];
    PiecesFront(s);
    var r := Scan(s, false, false);
    assert s[..r.len] == options[start..start + r.len] && s[r.len..] == options[start + r.len..];
  }

  method SkipSpaces(options: seq<byte>, from: nat) returns (i: nat)
    requires from <= |options|
    ensures from <= i <= |options| && (i < |options| ==> !IsSpace(options[i]))
    ensures Pieces(options[i..]) == Pieces(options[from..])
    ensures from < |options| && IsSpace(options[from]) ==> from < i
  {
    hide Pieces, IsSpace;
    i := from;
    while i < |options| && IsSpace(options[i])
      invariant from <= i <= |options|
      invariant Pieces(options[i..]) == Pieces(options[from..])
      invariant i == from || from < i
    {
      assert options[i..][0] == options[i];
      SkipOneSpace(options[i..]);
      assert options[i..][1..] == options[i + 1..];
      i := i + 1;
    }
  }

  lemma SkipOneSpace(s: seq<byte>)
    requires s != [] && IsSpace(s[0])
    ensures Pieces(s) == Pieces(s[1..])
  {
    var k := Skip(s[1..]);
    assert Skip(s) == k + 1;
    assert s[k + 1..] == s[1..][k..];
    hide Skip, Scan, IsSpace;
  }

  /** What is scanned from `start` on is `word` and what is still ahead of `i`. */
  ghost predicate ScannedTo(options: seq<byte>, start: nat, i: nat, sq: bool, dq: bool, word: seq<byte>) {
    && start <= i <= |options|
    && var r := Scan(options[i..], sq, dq);
       Scan(options[start..], false, false) == Scanned(i - start + r.len, word + r.text)
  }

  lemma ScanOn(options: seq<byte>, start: nat, i: nat, sq: bool, dq: bool, word: seq<byte>)
    requires ScannedTo(options, start, i, sq, dq, word) && !WordEnds(options[i..], sq, dq)
    ensures var u := Next(options[i..], sq, dq);
      ScannedTo(options, start, i + u.take, u.sq, u.dq, word + u.out)
  {
    ScanUnit(options[i..], sq, dq);
    var u := Next(options[i..], sq, dq);
    DropDrop(options, i, u.take);
    hide WordEnds, Next, Scan;
    Associative(word, u.out, Scan(options[i + u.take..], u.sq, u.dq).text);
  }

  lemma DropDrop<T>(s: seq<T>, i: nat, k: nat)
    requires i + k <= |s|
    ensures s[i..][k..] == s[i + k..]
  {
  }

  lemma Associative<T>(a: seq<T>, b: seq<T>, c: seq<T>)
    ensures a + (b + c) == a + b + c
  {
  }

  /** The next unit at index `i`, as the loop sees it. */
  lemma UnitAt(options: seq<byte>, i: nat, sq: bool, dq: bool)
    requires i < |options|
    ensures var b, s := options[i], options[i..];
      && (WordEnds(s, sq, dq) <==> !sq && !dq && IsSpace(b))
      && Next(s, sq, dq) ==
         if b == BACKSLASH && !sq && i + 1 < |options| then Unit(2, [options[i + 1]], sq, dq)
         else if b == SQUOTE && !dq then Unit(1, [], !sq, dq)
         else if b == DQUOTE && !sq then Unit(1, [], sq, !dq)
         else Unit(1, [b], sq, dq)
  {
    assert options[i..][0] == options[i];
  }

  lemma ScanEnds(options: seq<byte>, start: nat, i: nat, sq: bool, dq: bool, word: seq<byte>)
    requires ScannedTo(options, start, i, sq, dq, word) && WordEnds(options[i..], sq, dq)
    ensures Scan(options[start..], false, false) == Scanned(i - start, word)
  {
    ScanUnit(options[i..], sq, dq);
    NothingAdded(word);
  }

  /** One turn of the loop. */
  lemma ScanTurn(options: seq<byte>, start: nat, i: nat, sq: bool, dq: bool, word: seq<byte>)
    requires ScannedTo(options, start, i, sq, dq, word) && i < |options|
    ensures var b := options[i];
      if !sq && !dq && IsSpace(b) then Scan(options[start..], false, false) == Scanned(i - start, word)
      else if b == BACKSLASH && !sq && i + 1 < |options| then
        ScannedTo(options, start, i + 2, sq, dq, word + [options[i + 1]])
      else if b == SQUOTE && !dq then ScannedTo(options, start, i + 1, !sq, dq, word)
      else if b == DQUOTE && !sq then ScannedTo(options, start, i + 1, sq, !dq, word)
      else ScannedTo(options, start, i + 1, sq, dq, word + [b])
  {
    hide *;
    UnitAt(options, i, sq, dq);
    NothingAdded(word);
    if !sq && !dq && IsSpace(options[i]) {
      ScanEnds(options, start, i, sq, dq, word);
    } else {
      ScanOn(options, start, i, sq, dq, word);
    }
  }

  lemma ScanStarts(options: seq<byte>, start: nat)
    requires start <= |options|
    ensures ScannedTo(options, start, start, false, false, [])
  {
    var text := Scan(options[start..], false, false).text;
    assert [] + text == text;
  }

  /** At the end of the text a word ends. */
  lemma ScanStops(options: seq<byte>, start: nat, sq: bool, dq: bool, word: seq<byte>)
    requires ScannedTo(options, start, |options|, sq, dq, word)
    ensures Scan(options[start..], false, false) == Scanned(|options| - start, word)
  {
    ScanEnds(options, start, |options|, sq, dq, word);
  }

  method ScanWord(options: seq<byte>, start: nat) returns (i: nat, word: seq<byte>)
    requires start < |options|
    ensures start <= i <= |options| && Scan(options[start..], false, false) == Scanned(i - start, word)
  {
    hide *;
    i := start;
    word := [];
    var squote, dquote := false, false;
    ScanStarts(options, start);
    while i < |options|
      invariant start <= i <= |options|
      invariant ScannedTo(options, start, i, squote, dquote, word)
    {
      var b := options[i];
      ScanTurn(options, start, i, squote, dquote, word);
      if !squote && !dquote && IsSpace(b) {
        return;
      }
      if b == BACKSLASH && !squote && i + 1 < |options| {
        word := word + [options[i + 1]];
        i := i + 2;
        continue;
      }
      if b == SQUOTE && !dquote {
        squote := !squote;
        i := i + 1;
        continue;
      }
      if b == DQUOTE && !squote {
        dquote := !dquote;
        i := i + 1;
        continue;
      }
      word := word + [b];
      i := i + 1;
    }
    ScanStops(options, start, squote, dquote, word);
  }

  lemma NothingAdded<T>(s: seq<T>)
    ensures s + [] == s
  {
  }

  /** The token of the first setting, and the options without any setting the walk meets. */
  method ExtractFromOptions(options: seq<byte>) returns (token: Option<seq<byte>>, rest: seq<byte>)
    ensures (token, rest) == Extract(options)
  {
    hide Pieces, Join, Strip, IsGlued;
    var words := SplitOpts(options);
    ghost var ws := PiecesAt(options, words);
    token := None;
    var dropped: seq<nat> := [];
    var i := 0;
    assert ws[0..] == ws;
    while i < |words|
      invariant i <= |words|
      invariant forall d :: d in dropped ==> d < i
      invariant forall k :: 0 <= k < i ==> (Strip(ws).keep[k] <==> k !in dropped)
      invariant Strip(ws).keep[i..] == Strip(ws[i..]).keep
      invariant Strip(ws).token == if token.Some? then token else Strip(ws[i..]).token
      invariant token.None? <==> dropped == []
    {
      var text := words[i].text;
      if text == DASH_C && i + 1 < |words| && TOKEN_EQ <= words[i + 1].text {
        StripPair(ws, i);
        if token.None? {
          token := Some(words[i + 1].text[|TOKEN_EQ|..]);
        }
        dropped := dropped + [i, i + 1];
        i := i + 2;
        continue;
      }
      StripSingle(ws, i);
      GluedSplits(ws[i]);
      if DASH_C <= text && TOKEN_EQ <= text[|DASH_C|..] {
        if token.None? {
          token := Some(text[|DASH_C|..][|TOKEN_EQ|..]);
        }
        dropped := dropped + [i];
      }
      i := i + 1;
    }
    if dropped == [] {
      return None, options;
    }
    rest := JoinKept(options, words, dropped, Strip(ws).keep);
  }

  lemma GluedSplits(w: Piece)
    ensures IsGlued(w) <==> DASH_C <= w.text && TOKEN_EQ <= w.text[|DASH_C|..]
    ensures IsGlued(w) ==> w.text[|DASH_C| + |TOKEN_EQ|..] == w.text[|DASH_C|..][|TOKEN_EQ|..]
  {
    var t, n := w.text, |DASH_C|;
    if IsGlued(w) {
      assert forall k :: 0 <= k < |TOKEN_EQ| ==> t[n..][k] == (DASH_C + TOKEN_EQ)[n + k];
    }
  }

  lemma SuffixFacts<T>(s: seq<T>, i: nat)
    requires i < |s|
    ensures s[i..][0] == s[i] && s[i..][1..] == s[i + 1..]
    ensures i + 1 < |s| ==> s[i..][1] == s[i + 1] && s[i..][2..] == s[i + 2..]
  {
  }

  predicate PairAt(ws: seq<Piece>, i: nat)
    requires i < |ws|
  {
    ws[i].text == DASH_C && i + 1 < |ws| && TOKEN_EQ <= ws[i + 1].text
  }

  lemma PairUnfold(t: seq<Piece>)
    requires t != [] && PairAt(t, 0)
    ensures Strip(t) == Stripped(Some(t[1].text[|TOKEN_EQ|..]), [false, false] + Strip(t[2..]).keep)
  {
  }

  lemma SingleUnfold(w: Piece, rest: seq<Piece>)
    requires !PairAt([w] + rest, 0)
    ensures var r := Strip(rest);
            Strip([w] + rest)
            == Stripped(if IsGlued(w) then Some(w.text[|DASH_C| + |TOKEN_EQ|..]) else r.token, [!IsGlued(w)] + r.keep)
  {
    assert ([w] + rest)[1..] == rest;
  }

  lemma PairAtFront(ws: seq<Piece>, i: nat)
    requires i < |ws|
    ensures ws[i..] == [ws[i]] + ws[i + 1..] && PairAt(ws[i..], 0) == PairAt(ws, i)
  {
  }

  /** `Strip` from word `i` on, where a setting of two words starts. */
  lemma StripPair(ws: seq<Piece>, i: nat)
    requires i < |ws| && PairAt(ws, i)
    requires Strip(ws).keep[i..] == Strip(ws[i..]).keep
    ensures Strip(ws[i..]).token == Some(ws[i + 1].text[|TOKEN_EQ|..])
    ensures !Strip(ws).keep[i] && !Strip(ws).keep[i + 1] && Strip(ws).keep[i + 2..] == Strip(ws[i + 2..]).keep
  {
    SuffixFacts(ws, i);
    var t := ws[i..];
    assert PairAt(t, 0);
    hide *;
    PairUnfold(t);
    KeepTail(Strip(ws).keep, i, [false, false], Strip(t[2..]).keep);
  }

  /** `Strip` from word `i` on, where none does. */
  lemma StripSingle(ws: seq<Piece>, i: nat)
    requires i < |ws| && !PairAt(ws, i)
    requires Strip(ws).keep[i..] == Strip(ws[i..]).keep
    ensures Strip(ws[i..]).token
            == if IsGlued(ws[i]) then Some(ws[i].text[|DASH_C| + |TOKEN_EQ|..]) else Strip(ws[i + 1..]).token
    ensures Strip(ws).keep[i] == !IsGlued(ws[i]) && Strip(ws).keep[i + 1..] == Strip(ws[i + 1..]).keep
  {
    PairAtFront(ws, i);
    hide *;
    SingleUnfold(ws[i], ws[i + 1..]);
    var front := [!IsGlued(ws[i])];
    KeepTail(Strip(ws).keep, i, front, Strip(ws[i + 1..]).keep);
    assert front[0] == !IsGlued(ws[i]);
  }

  lemma KeepTail(keep: seq<bool>, i: nat, front: seq<bool>, back: seq<bool>)
    requires i <= |keep| && keep[i..] == front + back
    ensures i + |front| <= |keep| && keep[i + |front|..] == back
    ensures forall k :: i <= k < i + |front| ==> keep[k] == front[k - i]
  {
    assert keep[i..][|front|..] == back;
    assert forall k :: i <= k < i + |front| ==> keep[k] == keep[i..][k - i];
  }

  /** The words whose index was not dropped, joined by single spaces. */
  method JoinKept(options: seq<byte>, words: seq<Word>, dropped: seq<nat>, ghost keep: seq<bool>)
    returns (rest: seq<byte>)
    requires SpansOf(options, words) && |keep| == |words|
    requires forall k :: 0 <= k < |words| ==> (keep[k] <==> k !in dropped)
    ensures rest == Join(Select(PiecesAt(options, words), keep))
  {
    hide Join, Select, PiecesAt;
    ghost var ws := PiecesAt(options, words);
    assert |ws| == |words| && forall k :: 0 <= k < |words| ==> ws[k].raw == options[words[k].start..words[k].end] by {
      PiecesAtRaw(options, words);
    }
    rest := [];
    var first := true;
    JoinNone();
    SelectNone(ws, keep);
    for idx := 0 to |words|
      invariant first <==> Select(ws[..idx], keep[..idx]) == []
      invariant rest == Join(Select(ws[..idx], keep[..idx]))
    {
      SelectSnoc(ws, keep, idx);
      ghost var before := Select(ws[..idx], keep[..idx]);
      assert before + [] == before;
      if idx !in dropped {
        JoinSnoc(before, ws[idx]);
        rest := (if first then [] else rest + [SPACE]) + options[words[idx].start..words[idx].end];
        first := false;
      }
    }
    assert ws[..|words|] == ws && keep[..|words|] == keep;
  }

  lemma SelectNone(ws: seq<Piece>, keep: seq<bool>)
    requires |ws| == |keep|
    ensures Select(ws[..0], keep[..0]) == []
  {
  }

  lemma PiecesAtRaw(options: seq<byte>, words: seq<Word>)
    requires SpansOf(options, words)
    ensures |PiecesAt(options, words)| == |words|
    ensures forall k :: 0 <= k < |words| ==> PiecesAt(options, words)[k].raw == options[words[k].start..words[k].end]
  {
  }

  lemma {:induction false} SelectSnoc(ws: seq<Piece>, keep: seq<bool>, i: nat)
    requires |ws| == |keep| && i < |ws|
    ensures Select(ws[..i + 1], keep[..i + 1]) == Select(ws[..i], keep[..i]) + if keep[i] then [ws[i]] else []
  {
    if i > 0 {
      SelectSnoc(ws[1..], keep[1..], i - 1);
      assert ws[..i + 1][1..] == ws[1..][..i] && keep[..i + 1][1..] == keep[1..][..i];
      assert ws[..i][1..] == ws[1..][..i - 1] && keep[..i][1..] == keep[1..][..i - 1];
    }
  }

  lemma {:induction false} JoinSnoc(ws: seq<Piece>, w: Piece)
    ensures Join(ws + [w]) == (if ws == [] then [] else Join(ws) + [SPACE]) + w.raw
  {
    var all := ws + [w];
    if ws == [] {
      assert all == [w];
    } else {
      JoinSnoc(ws[1..], w);
      assert all[1..] == ws[1..] + [w];
    }
  }
}
