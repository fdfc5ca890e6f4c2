/**
 Cutting translated texts into sections of at most `max` UTF-8 bytes: the splitter that counts bytes
 (scripts/generate_i18n_json_from_header.py) and the one that encodes its candidate again at every step
 (scripts/convert_i18n_compact.py).
 */
module I18nSplit {
  import opened Values

  // ---------------------------------------------------------------- UTF-8

  function Encode(c: char): (b: seq<Byte>)
    ensures 1 <= |b| <= 4
  {
    var x := c as int;
    if x < 0x80 then [x]
    else if x < 0x800 then [0xC0 + x / 0x40, 0x80 + x % 0x40]
    else if x < 0x10000 then [0xE0 + x / 0x1000, 0x80 + x / 0x40 % 0x40, 0x80 + x % 0x40]
    else [0xF0 + x / 0x40000, 0x80 + x / 0x1000 % 0x40, 0x80 + x / 0x40 % 0x40, 0x80 + x % 0x40]
  }

  /** The length of a character's encoding by the ranges of RFC 3629, section 3. */
  lemma EncodingLength(c: char)
    ensures |Encode(c)| == 1 <==> c as int <= 0x7F
    ensures |Encode(c)| == 2 <==> 0x80 <= c as int <= 0x7FF
    ensures |Encode(c)| == 3 <==> 0x800 <= c as int <= 0xFFFF
    ensures |Encode(c)| == 4 <==> 0x10000 <= c as int
  {
  }

  /** The code point of an encoding, read off its lead byte and the six low bits of the others. */
  function CodePoint(b: seq<Byte>): int
    requires 1 <= |b| <= 4
  {
    if |b| == 1 then b[0]
    else if |b| == 2 then (b[0] as int - 0xC0) * 0x40 + (b[1] as int - 0x80)
    else if |b| == 3 then (b[0] as int - 0xE0) * 0x1000 + (b[1] as int - 0x80) * 0x40 + (b[2] as int - 0x80)
    else (b[0] as int - 0xF0) * 0x40000 + (b[1] as int - 0x80) * 0x1000 + (b[2] as int - 0x80) * 0x40
         + (b[3] as int - 0x80)
  }

  lemma SixBitDigits(x: nat)
    ensures x == x / 0x40 * 0x40 + x % 0x40
    ensures x / 0x40 == x / 0x1000 * 0x40 + x / 0x40 % 0x40
    ensures x / 0x1000 == x / 0x40000 * 0x40 + x / 0x1000 % 0x40
  {
  }

  /** Encoding is reversible... */
  lemma EncodingDecodes(c: char)
    ensures CodePoint(Encode(c)) == c as int
  {
    SixBitDigits(c as int);
  }

  /** ...the lead byte tells the length, and the other bytes are continuation bytes: characters can be told
      apart in the encoded text. */
  lemma EncodingShape(c: char)
    ensures var b := Encode(c);
      && (|b| == 1 <==> b[0] < 0x80) && (|b| == 2 <==> 0xC0 <= b[0] < 0xE0) && (|b| == 3 <==> 0xE0 <= b[0] < 0xF0)
      && (|b| == 4 <==> 0xF0 <= b[0] < 0xF8)
      && forall i :: 1 <= i < |b| ==> 0x80 <= b[i] < 0xC0
  {
  }

  function Utf8(s: string): seq<Byte> {
    if s == "" then [] else Utf8(s[..|s| - 1]) + Encode(s[|s| - 1])
  }

  lemma EmptyUtf8()
    ensures Utf8("") == []
  {
  }

  lemma Utf8Snoc(s: string, c: char)
    ensures Utf8(s + [c]) == Utf8(s) + Encode(c)
  {
    hide Encode;
    assert (s + [c])[..|s|] == s;
  }

  lemma {:induction false} Utf8Concat(s: string, t: string)
    ensures Utf8(s + t) == Utf8(s) + Utf8(t)
  {
    hide Encode;
    if t == "" {
      assert s + t == s;
    } else {
      assert (s + t)[..|s + t| - 1] == s + t[..|t| - 1];
      Utf8Concat(s, t[..|t| - 1]);
    }
  }

  // ---------------------------------------------------------------- the greedy split

  function Pieces(text: string, i: nat, current: string, max: nat): seq<string>
    requires i <= |text|
    decreases |text| - i
  {
    if i == |text| then (if current == "" then [] else [current])
    else
      var candidate := current + [text[i]];
      if |Utf8(candidate)| <= max then Pieces(text, i + 1, candidate, max)
      else if current == "" then [[text[i]]] + Pieces(text, i + 1, "", max)
      else [current] + Pieces(text, i + 1, [text[i]], max)
  }

  /** What both splitters return. */
  function Split(text: string, max: nat): (sections: seq<string>)
    ensures sections != []
  {
    var pieces := Pieces(text, 0, "", max);
    if pieces == [] then [""] else pieces
  }

  lemma PiecesStep(text: string, i: nat, current: string, max: nat)
    requires i < |text|
    ensures Pieces(text, i, current, max) ==
      if |Utf8(current + [text[i]])| <= max then Pieces(text, i + 1, current + [text[i]], max)
      else if current == "" then [[text[i]]] + Pieces(text, i + 1, "", max)
      else [current] + Pieces(text, i + 1, [text[i]], max)
  {
  }

  lemma PiecesEnd(text: string, current: string, max: nat)
    ensures Pieces(text, |text|, current, max) == if current == "" then [] else [current]
  {
  }

  lemma Utf8One(c: char)
    ensures Utf8([c]) == Encode(c)
  {
    Utf8Snoc("", c);
    assert "" + [c] == [c];
  }

  /** A character that is too wide stays alone, whether or not it is put down at once. */
  lemma {:induction false} WideStaysAlone(text: string, i: nat, c: char, max: nat)
    requires i <= |text| && |Encode(c)| > max
    ensures Pieces(text, i, [c], max) == [[c]] + Pieces(text, i, "", max)
    decreases |text| - i
  {
    hide Encode, Utf8, Pieces;
    if i == |text| {
      PiecesEnd(text, [c], max);
      PiecesEnd(text, "", max);
    } else {
      PiecesStep(text, i, [c], max);
      PiecesStep(text, i, "", max);
      Utf8One(c);
      Utf8Concat([c], [text[i]]);
      Utf8One(text[i]);
      assert "" + [text[i]] == [text[i]];
      if |Encode(text[i])| > max {
        WideStaysAlone(text, i + 1, text[i], max);
      }
    }
  }

  /** The same step decided by byte counts. */
  lemma CountingStep(text: string, i: nat, current: string, max: nat)
    requires i < |text|
    ensures var ch := text[i]; var b := |Encode(ch)|; var size := |Utf8(current)|;
      |Utf8(current + [ch])| == size + b && |Utf8([ch])| == b &&
      Pieces(text, i, current, max) ==
        if size + b <= max then Pieces(text, i + 1, current + [ch], max)
        else if b <= max then [current] + Pieces(text, i + 1, [ch], max)
        else (if current == "" then [[ch]] else [current, [ch]]) + Pieces(text, i + 1, "", max)
  {
    hide Encode, Utf8, Pieces;
    var ch := text[i];
    PiecesStep(text, i, current, max);
    EmptyUtf8();
    Utf8Snoc(current, ch);
    Utf8One(ch);
    if |Encode(ch)| > max && current != "" {
      WideStaysAlone(text, i + 1, ch, max);
      assert [current, [ch]] == [current] + [[ch]];
    }
  }

  lemma Regroup(done: seq<string>, next: seq<string>, rest: seq<string>)
    ensures done + next + rest == done + (next + rest)
  {
  }

  /** _split_utf8_sections */
  method SplitCounting(text: string, max: nat) returns (chunks: seq<string>)
    ensures chunks == Split(text, max)
  {
    if text == "" {
      return [""];
    }
    hide Encode, Utf8, Pieces;
    EmptyUtf8();
    chunks := [];
    var current, size: nat := "", 0;
    var i := 0;
    while i < |text|
      invariant i <= |text| && size == |Utf8(current)|
      invariant chunks + Pieces(text, i, current, max) == Pieces(text, 0, "", max)
      invariant i > 0 ==> chunks != [] || current != ""
    {
      var ch := text[i];
      var b := |Encode(ch)|;
      CountingStep(text, i, current, max);
      i := i + 1;
      if b > max {
        Regroup(chunks, if current == "" then [[ch]] else [current, [ch]], Pieces(text, i, "", max));
        if current != "" {
          assert chunks + [current, [ch]] == chunks + [current] + [[ch]];
          chunks := chunks + [current];
          current, size := "", 0;
        }
        chunks := chunks + [[ch]];
        continue;
      }
      if size + b > max {
        Regroup(chunks, [current], Pieces(text, i, [ch], max));
        chunks := chunks + [current];
        current, size := [ch], b;
      } else {
        current, size := current + [ch], size + b;
      }
    }
    PiecesEnd(text, current, max);
    if current != "" {
      chunks := chunks + [current];
    }
  }

  /** split_text_by_bytes */
  method SplitReencoding(text: string, max: nat) returns (chunks: seq<string>)
    ensures chunks == Split(text, max)
  {
    hide Encode, Utf8, Pieces;
    chunks := [];
    var current := "";
    var i := 0;
    while i < |text|
      invariant i <= |text|
      invariant chunks + Pieces(text, i, current, max) == Pieces(text, 0, "", max)
    {
      PiecesStep(text, i, current, max);
      var candidate := current + [text[i]];
      Regroup(chunks, [[text[i]]], Pieces(text, i + 1, "", max));
      Regroup(chunks, [current], Pieces(text, i + 1, [text[i]], max));
      if |Utf8(candidate)| <= max {
        current := candidate;
      } else if current == "" {
        chunks := chunks + [[text[i]]];
        current := "";
      } else {
        chunks := chunks + [current];
        current := [text[i]];
      }
      i := i + 1;
    }
    PiecesEnd(text, current, max);
    if current != "" {
      chunks := chunks + [current];
    }
    if |chunks| == 0 {
      return [""];
    }
  }

  // ---------------------------------------------------------------- what the split is

  function Join(pieces: seq<string>): string {
    if pieces == [] then "" else pieces[0] + Join(pieces[1..])
  }

  lemma NothingJoins()
    ensures Join([]) == ""
  {
  }

  lemma JoinCons(first: string, rest: seq<string>)
    ensures Join([first] + rest) == first + Join(rest)
  {
    assert ([first] + rest)[1..] == rest;
  }

  lemma {:induction false} PiecesRejoin(text: string, i: nat, current: string, max: nat)
    requires i <= |text|
    ensures Join(Pieces(text, i, current, max)) == current + text[i..]
    decreases |text| - i
  {
    hide Encode, Utf8, Pieces, Join;
    NothingJoins();
    if i == |text| {
      PiecesEnd(text, current, max);
      if current != "" {
        assert [current] + [] == [current];
        JoinCons(current, []);
      }
    } else {
      PiecesStep(text, i, current, max);
      var ch := text[i];
      assert text[i..] == [ch] + text[i + 1..];
      if |Utf8(current + [ch])| <= max {
        PiecesRejoin(text, i + 1, current + [ch], max);
      } else if current == "" {
        PiecesRejoin(text, i + 1, "", max);
        JoinCons([ch], Pieces(text, i + 1, "", max));
      } else {
        PiecesRejoin(text, i + 1, [ch], max);
        JoinCons(current, Pieces(text, i + 1, [ch], max));
      }
    }
  }

  /** No character is lost, added, moved or cut: the sections and their encodings join to the text's. */
  lemma Rejoins(text: string, max: nat)
    ensures Join(Split(text, max)) == text
  {
    PiecesRejoin(text, 0, "", max);
    JoinCons("", []);
    assert text[0..] == text;
  }

  /** Within the limit, or a single character that no section could hold. */
  predicate Fits(section: string, max: nat) {
    |Utf8(section)| <= max || |section| == 1
  }

  lemma {:induction false} PiecesFit(text: string, i: nat, current: string, max: nat)
    requires i <= |text| && Fits(current, max)
    ensures forall p :: p in Pieces(text, i, current, max) ==> p != "" && Fits(p, max)
    decreases |text| - i
  {
    hide Encode, Utf8;
    if i < |text| {
      var ch := text[i];
      if |Utf8(current + [ch])| <= max {
        PiecesFit(text, i + 1, current + [ch], max);
      } else {
        PiecesFit(text, i + 1, if current == "" then "" else [ch], max);
      }
    }
  }

  lemma {:induction false} InJoin(pieces: seq<string>, p: string)
    requires p in pieces
    ensures forall c :: c in p ==> c in Join(pieces)
  {
    if p != pieces[0] {
      InJoin(pieces[1..], p);
    }
  }

  /** When every character fits a section, so does every section; none is empty unless the text is. */
  lemma SectionsFit(text: string, max: nat)
    ensures forall p :: p in Split(text, max) ==> Fits(p, max) && (p == "" ==> text == "")
    ensures (forall c :: c in text ==> |Encode(c)| <= max) ==>
      forall p :: p in Split(text, max) ==> |Utf8(p)| <= max
  {
    PiecesFit(text, 0, "", max);
    Rejoins(text, max);
    forall p | p in Split(text, max) && |p| == 1 ensures p[0] in text && |Utf8(p)| == |Encode(p[0])| {
      InJoin(Split(text, max), p);
      Utf8Snoc("", p[0]);
      assert p == "" + [p[0]];
    }
  }

  // ---------------------------------------------------------------- the fewest sections

  /** A way to cut `text` into sections within the limit. */
  ghost predicate Cut(pieces: seq<string>, text: string, max: nat) {
    Join(pieces) == text && forall k :: 0 <= k < |pieces| ==> |Utf8(pieces[k])| <= max
  }

  /** A cut of what is left after the first k characters. */
  lemma {:induction false} CutRest(pieces: seq<string>, text: string, k: nat, max: nat) returns (rest: seq<string>)
    requires Cut(pieces, text, max) && k <= |text|
    ensures Cut(rest, text[k..], max) && |rest| <= |pieces|
    ensures pieces != [] && |pieces[0]| <= k ==> |rest| < |pieces|
    decreases |pieces|
  {
    hide Encode, Utf8;
    if pieces == [] {
      rest := [];
    } else {
      var first := pieces[0];
      assert Cut(pieces[1..], text[|first|..], max);
      if |first| <= k {
        rest := CutRest(pieces[1..], text[|first|..], k - |first|, max);
        assert text[|first|..][k - |first|..] == text[k..];
      } else {
        rest := [first[k..]] + pieces[1..];
        JoinCons(first[k..], pieces[1..]);
        assert first == first[..k] + first[k..];
        Utf8Concat(first[..k], first[k..]);
      }
    }
  }

  lemma PrefixIsNoLonger(s: string, t: string)
    requires |s| <= |t| && s == t[..|s|]
    ensures |Utf8(s)| <= |Utf8(t)|
  {
    hide Encode, Utf8;
    Utf8Concat(s, t[|s|..]);
    assert s + t[|s|..] == t;
  }

  /** Greedy stays ahead. */
  lemma {:induction false} GreedyIsFewest(text: string, i: nat, current: string, max: nat, pieces: seq<string>)
    requires i <= |text| && current != ""
    requires Cut(pieces, current + text[i..], max)
    ensures |Pieces(text, i, current, max)| <= |pieces|
    decreases |text| - i
  {
    hide Encode, Utf8;
    var whole := current + text[i..];
    assert pieces != [];
    if i < |text| {
      var ch := text[i];
      var candidate := current + [ch];
      assert whole == candidate + text[i + 1..];
      if |Utf8(candidate)| <= max {
        GreedyIsFewest(text, i + 1, candidate, max, pieces);
      } else {
        if |pieces[0]| > |current| {
          assert pieces[0] == whole[..|pieces[0]|];
          assert candidate == pieces[0][..|candidate|];
          PrefixIsNoLonger(candidate, pieces[0]);
          assert false;
        }
        var rest := CutRest(pieces, whole, |current|, max);
        assert whole[|current|..] == [ch] + text[i + 1..];
        GreedyIsFewest(text, i + 1, [ch], max, rest);
      }
    }
  }

  lemma {:induction false} FirstFits(text: string, max: nat, pieces: seq<string>)
    requires Cut(pieces, text, max) && text != ""
    ensures |Utf8([text[0]])| <= max
    decreases |pieces|
  {
    if pieces[0] == "" {
      assert Cut(pieces[1..], text, max);
      FirstFits(text, max, pieces[1..]);
    } else {
      PrefixIsNoLonger([text[0]], pieces[0]);
    }
  }

  /** No way of cutting the text into sections within the limit uses fewer sections. */
  lemma FewestSections(text: string, max: nat, pieces: seq<string>)
    requires Cut(pieces, text, max) && pieces != []
    ensures |Split(text, max)| <= |pieces|
  {
    if text != "" {
      FirstFits(text, max, pieces);
      assert text == [text[0]] + text[1..];
      GreedyIsFewest(text, 1, [text[0]], max, pieces);
      assert "" + [text[0]] == [text[0]];
    }
  }
}
