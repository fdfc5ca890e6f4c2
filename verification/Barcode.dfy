/**
 Getting a barcode out of what the scanner sent (scanner_extract_clean_barcode in main/tasks.c).
 A text is a C string: it ends at its first NUL.
 */
module Barcode {
  import opened Values

  const TEXT_MAX: nat := 63                // FSM_EVENT_TEXT_MAX_LEN less the terminator
  const RESET := "[RESET]"

  // ---------------------------------------------------------------- text

  predicate IsPrintable(c: char) {
    32 <= c as int <= 126
  }

  /** Where the C string ends, looking from position i. */
  function EndFrom(raw: string, i: nat): (e: nat)
    requires i <= |raw|
    ensures i <= e <= |raw| && '\0' !in raw[i..e] && (e < |raw| ==> raw[e] == '\0')
    decreases |raw| - i
  {
    if i == |raw| || raw[i] == '\0' then i else EndFrom(raw, i + 1)
  }

  function Filtered(s: string): string {
    if s == "" then ""
    else Filtered(s[..|s| - 1]) + if IsPrintable(s[|s| - 1]) then [s[|s| - 1]] else []
  }

  function Clip(s: string, n: nat): string {
    if |s| <= n then s else s[..n]
  }

  /** The first 63 printable characters. */
  function Visible(raw: string): string {
    Clip(Filtered(raw[..EndFrom(raw, 0)]), TEXT_MAX)
  }

  /** The first position from i on that is not a space. */
  function FrontOf(s: string, i: nat): (lo: nat)
    requires i <= |s|
    ensures i <= lo <= |s| && (forall k :: i <= k < lo ==> s[k] == ' ') && (lo < |s| ==> s[lo] != ' ')
    decreases |s| - i
  {
    if i < |s| && s[i] == ' ' then FrontOf(s, i + 1) else i
  }

  /** The end of s[lo..hi] without its trailing spaces. */
  function BackOf(s: string, lo: nat, hi: nat): (e: nat)
    requires lo <= hi <= |s|
    ensures lo <= e <= hi && (forall k :: e <= k < hi ==> s[k] == ' ') && (lo < e ==> s[e - 1] != ' ')
  {
    if lo < hi && s[hi - 1] == ' ' then BackOf(s, lo, hi - 1) else hi
  }

  function Trim(s: string): string {
    var lo := FrontOf(s, 0);
    s[lo..BackOf(s, lo, |s|)]
  }

  predicate OccursAt(s: string, part: string, k: int) {
    0 <= k <= |s| - |part| && forall j :: 0 <= j < |part| ==> s[k + j] == part[j]
  }

  predicate Contains(s: string, part: string) {
    exists k :: 0 <= k <= |s| - |part| && OccursAt(s, part, k)
  }

  /** Text that looks like the scanner's own protocol. */
  predicate LooksLikeFrame(s: string) {
    || Contains(s, "SCNENA") || Contains(s, "SCNMOD") || Contains(s, "RRDENA")
    || Contains(s, "CIDENA") || Contains(s, "RRDDUR")
    || ('#' in s && ';' in s)
  }

  /** The filter keeps the characters from space to tilde, each as often as it is there. */
  lemma {:induction false} FilterKeeps(s: string, c: char)
    ensures multiset(Filtered(s))[c] == if ' ' <= c <= '~' then multiset(s)[c] else 0
  {
    if s != "" {
      FilterKeeps(s[..|s| - 1], c);
      assert s == s[..|s| - 1] + [s[|s| - 1]];
    }
  }

  /** Their order is kept: what comes first comes out first. */
  lemma {:induction false} FilterConcat(s: string, t: string)
    ensures Filtered(s + t) == Filtered(s) + Filtered(t)
  {
    if t == "" {
      assert s + t == s;
    } else {
      assert (s + t)[..|s + t| - 1] == s + t[..|t| - 1];
      FilterConcat(s, t[..|t| - 1]);
    }
  }

  const FRAME_MARKS: set<string> := {"SCNENA", "SCNMOD", "RRDENA", "CIDENA", "RRDDUR"}

  lemma ContainsIff(s: string, mark: string)
    ensures Contains(s, mark) <==> exists k :: OccursAt(s, mark, k)
  {
  }

  /** A frame is told by one of five command names, or by a hash and a semicolon together. */
  lemma FrameIff(s: string)
    ensures LooksLikeFrame(s) <==>
      (exists mark :: mark in FRAME_MARKS && exists k :: OccursAt(s, mark, k))
      || (exists i, j :: 0 <= i < |s| && 0 <= j < |s| && s[i] == '#' && s[j] == ';')
  {
    hide OccursAt;
    ContainsIff(s, "SCNENA");
    ContainsIff(s, "SCNMOD");
    ContainsIff(s, "RRDENA");
    ContainsIff(s, "CIDENA");
    ContainsIff(s, "RRDDUR");
    hide Contains;
    if '#' in s && ';' in s {
      var i :| 0 <= i < |s| && s[i] == '#';
      var j :| 0 <= j < |s| && s[j] == ';';
    }
  }

  // ---------------------------------------------------------------- digit runs

  predicate IsDigit(c: char) {
    '0' <= c <= '9'
  }

  lemma DigitsAreDecimal(c: char)
    ensures IsDigit(c) <==> c in "0123456789"
  {
  }

  ghost predicate Digits(s: string, a: int, b: int) {
    0 <= a <= b <= |s| && forall k :: a <= k < b ==> IsDigit(s[k])
  }

  /** s[a..b] is digits and cannot be extended. */
  ghost predicate Run(s: string, a: int, b: int) {
    0 <= a < b <= |s| && Digits(s, a, b) && (a > 0 ==> !IsDigit(s[a - 1])) && (b < |s| ==> !IsDigit(s[b]))
  }

  /** The longest run, and of several the latest. */
  ghost predicate Best(s: string, a: int, b: int) {
    Run(s, a, b) && forall c, d :: Run(s, c, d) ==> d - c < b - a || (d - c == b - a && c <= a)
  }

  lemma RunsAreApart(s: string, a: int, b: int, c: int, d: int)
    requires Run(s, a, b) && Run(s, c, d) && c < b && a < d
    ensures a == c && b == d
  {
  }

  lemma BestIsUnique(s: string, a: int, b: int, c: int, d: int)
    requires Best(s, a, b) && Best(s, c, d)
    ensures a == c && b == d
  {
  }

  /** Any stretch of digits lies in a run... */
  lemma {:induction false} Extend(s: string, a: int, b: int) returns (c: int, d: int)
    requires a < b && Digits(s, a, b)
    ensures c <= a && b <= d && Run(s, c, d)
    decreases |s| - (b - a)
  {
    if a > 0 && IsDigit(s[a - 1]) {
      c, d := Extend(s, a - 1, b);
    } else if b < |s| && IsDigit(s[b]) {
      c, d := Extend(s, a, b + 1);
    } else {
      c, d := a, b;
    }
  }

  /** ...so no stretch of digits is longer than the best run. */
  lemma BestIsLongest(s: string, a: int, b: int, c: int, d: int)
    requires Best(s, a, b) && Digits(s, c, d)
    ensures d - c <= b - a
  {
    if c < d {
      var e, f := Extend(s, c, d);
    }
  }

  lemma {:induction false} Improve(s: string, a: int, b: int) returns (c: int, d: int)
    requires Run(s, a, b)
    ensures Best(s, c, d)
    decreases |s| - (b - a), |s| - a
  {
    if e, f :| Run(s, e, f) && (f - e > b - a || (f - e == b - a && e > a)) {
      c, d := Improve(s, e, f);
    } else {
      c, d := a, b;
    }
  }

  /** There is a best run as soon as there is a digit. */
  lemma FindBest(s: string, k: int) returns (a: int, b: int)
    requires 0 <= k < |s| && IsDigit(s[k])
    ensures Best(s, a, b)
  {
    a, b := Extend(s, k, k + 1);
    a, b := Improve(s, a, b);
  }

  /** The best of the runs that end before position i. */
  ghost predicate BestBefore(s: string, i: nat, start: nat, len: nat)
  {
    && (len > 0 ==> start + len < i && Run(s, start, start + len))
    && forall c, d :: Run(s, c, d) && d < i ==> d - c < len || (d - c == len && c <= start)
  }

  lemma OnlyRunEndingAt(s: string, a: int, b: int)
    requires Run(s, a, b)
    ensures forall c :: Run(s, c, b) ==> c == a
  {
    forall c | Run(s, c, b) ensures c == a {
      RunsAreApart(s, a, b, c, b);
    }
  }

  method LongestRun(s: string) returns (start: nat, len: nat)
    ensures len > 0 ==> Best(s, start, start + len)
    ensures len == 0 ==> forall a, b :: !Run(s, a, b)
  {
    start, len := 0, 0;
    var runStart: nat, runLen: nat := 0, 0;
    var i: nat := 0;
    while true
      invariant i <= |s| && runLen <= i
      invariant runLen > 0 ==> runStart + runLen == i && Digits(s, runStart, i)
      invariant runLen > 0 && runStart > 0 ==> !IsDigit(s[runStart - 1])
      invariant runLen == 0 && i > 0 ==> !IsDigit(s[i - 1])
      invariant BestBefore(s, i, start, len)
      decreases |s| - i
    {
      if i < |s| && IsDigit(s[i]) {
        if runLen == 0 {
          runStart := i;
        }
        runLen := runLen + 1;
      } else {
        if runLen > 0 {
          OnlyRunEndingAt(s, runStart, i);
          if runLen > len || (runLen == len && runStart >= start) {
            start, len := runStart, runLen;
          }
          runLen := 0;
        }
        assert BestBefore(s, i + 1, start, len);
        if i == |s| {
          break;
        }
      }
      i := i + 1;
    }
  }

  // ---------------------------------------------------------------- extraction

  /** What is to come out of a trimmed text for a buffer of cleanLen bytes. */
  ghost predicate TextAnswer(text: string, cleanLen: nat, result: Option<string>) {
    if cleanLen == 0 || text == "" || Contains(text, RESET) then result == None
    else if !LooksLikeFrame(text) then result == Some(Clip(text, cleanLen - 1))
    else if exists a, b :: Best(text, a, b) && b - a >= 6 then
      exists a, b :: Best(text, a, b) && b - a >= 6 && result == Some(Clip(text[a..b], cleanLen - 1))
    else result == None
  }

  ghost predicate Answer(raw: string, cleanLen: nat, result: Option<string>) {
    TextAnswer(Trim(Visible(raw)), cleanLen, result)
  }

  lemma {:induction false} FilteredGrows(s: string, i: nat)
    requires i <= |s|
    ensures |Filtered(s[..i])| <= |Filtered(s)| && Filtered(s)[..|Filtered(s[..i])|] == Filtered(s[..i])
  {
    if i < |s| {
      var front := s[..|s| - 1];
      FilteredGrows(front, i);
      assert front[..i] == s[..i];
    } else {
      assert s[..i] == s;
    }
  }

  method ReadPrintable(raw: string) returns (printable: string)
    ensures printable == Visible(raw)
  {
    printable := "";
    var i := 0;
    while i < |raw| && raw[i] != '\0' && |printable| < TEXT_MAX
      invariant i <= |raw| && |printable| <= TEXT_MAX
      invariant EndFrom(raw, i) == EndFrom(raw, 0)
      invariant printable == Filtered(raw[..i])
    {
      assert raw[..i + 1][..i] == raw[..i];
      if IsPrintable(raw[i]) {
        printable := printable + [raw[i]];
      }
      i := i + 1;
    }
    var whole := raw[..EndFrom(raw, 0)];
    assert whole[..i] == raw[..i];
    FilteredGrows(whole, i);
    assert |printable| < TEXT_MAX ==> whole == raw[..i];
  }

  method PickDigits(text: string, cleanLen: nat) returns (clean: Option<string>)
    requires cleanLen > 0
    ensures !(exists a, b :: Best(text, a, b) && b - a >= 6) ==> clean == None
    ensures (exists a, b :: Best(text, a, b) && b - a >= 6) ==>
      exists a, b :: Best(text, a, b) && b - a >= 6 && clean == Some(Clip(text[a..b], cleanLen - 1))
  {
    var bestStart, bestLen := LongestRun(text);
    if bestLen < 6 {
      forall a, b | Best(text, a, b) ensures b - a < 6 {
        if bestLen > 0 {
          BestIsUnique(text, a, b, bestStart, bestStart + bestLen);
        }
      }
      return None;
    }
    ghost var end := bestStart + bestLen;
    assert Best(text, bestStart, end);
    if bestLen >= cleanLen {
      bestLen := cleanLen - 1;
    }
    assert text[bestStart..bestStart + bestLen] == Clip(text[bestStart..end], cleanLen - 1);
    return Some(text[bestStart..bestStart + bestLen]);
  }

  /** scanner_extract_clean_barcode */
  method Extract(raw: string, cleanLen: nat) returns (clean: Option<string>)
    ensures Answer(raw, cleanLen, clean)
  {
    hide LooksLikeFrame, Contains, Best, Visible;
    if cleanLen == 0 {
      return None;
    }
    var printable := ReadPrintable(raw);
    var start := 0;
    while start < |printable| && printable[start] == ' '
      invariant start <= |printable| && FrontOf(printable, start) == FrontOf(printable, 0)
    {
      start := start + 1;
    }
    var len := |printable| - start;
    while len > 0 && printable[start + len - 1] == ' '
      invariant 0 <= len <= |printable| - start
      invariant BackOf(printable, start, start + len) == BackOf(printable, start, |printable|)
    {
      len := len - 1;
    }
    var trimmed := printable[start..start + len];
    assert trimmed == Trim(printable);
    if len == 0 || Contains(trimmed, RESET) {
      return None;
    }
    if !LooksLikeFrame(trimmed) {
      if len >= cleanLen {
        len := cleanLen - 1;
      }
      assert trimmed[..len] == Clip(trimmed, cleanLen - 1);
      return Some(trimmed[..len]);
    }
    clean := PickDigits(trimmed, cleanLen);
  }

  // ---------------------------------------------------------------- what comes out

  /** The answer is determined: at most one result fits a text. */
  lemma AnswerIsUnique(raw: string, cleanLen: nat, x: Option<string>, y: Option<string>)
    requires Answer(raw, cleanLen, x) && Answer(raw, cleanLen, y)
    ensures x == y
  {
    var text := Trim(Visible(raw));
    if a, b :| Best(text, a, b) && b - a >= 6 {
      forall c, d | Best(text, c, d) ensures c == a && d == b {
        BestIsUnique(text, a, b, c, d);
      }
    }
  }

  /** A frame is answered exactly when it has six digits in a row somewhere, and then with digits no
      fewer than in any stretch of digits, up to the room there is. */
  lemma FrameAnswer(raw: string, cleanLen: nat, x: Option<string>)
    requires Answer(raw, cleanLen, x)
    requires var text := Trim(Visible(raw)); cleanLen > 0 && LooksLikeFrame(text) && !Contains(text, RESET)
    ensures var text := Trim(Visible(raw));
      && (x.Some? <==> exists c, d :: 6 <= d - c && Digits(text, c, d))
      && (x.Some? ==> Digits(x.value, 0, |x.value|))
      && (x.Some? ==> forall c, d :: Digits(text, c, d) ==> d - c <= |x.value| || |x.value| == cleanLen - 1)
  {
    var text := Trim(Visible(raw));
    if x.Some? {
      var a, b :| Best(text, a, b) && b - a >= 6 && x == Some(Clip(text[a..b], cleanLen - 1));
      forall c, d | Digits(text, c, d) ensures d - c <= b - a {
        BestIsLongest(text, a, b, c, d);
      }
    } else if c, d :| 6 <= d - c && Digits(text, c, d) {
      var a, b := FindBest(text, c);
      BestIsLongest(text, a, b, c, d);
    }
  }

  lemma OccursFrom(s: string, part: string, k: int)
    requires OccursAt(s, part, k) && part != ""
    ensures 0 <= k < |s| && s[k] == part[0]
  {
    assert s[k + 0] == part[0];
  }

  lemma DigitsAreNotReset(s: string)
    requires Digits(s, 0, |s|)
    ensures !Contains(s, RESET)
  {
    if k :| OccursAt(s, RESET, k) {
      OccursFrom(s, RESET, k);
      assert false;
    }
  }

  lemma SliceOccurs(s: string, lo: nat, hi: nat, part: string, k: int)
    requires lo <= k && k + |part| <= hi <= |s|
    ensures OccursAt(s[lo..hi], part, k - lo) <==> OccursAt(s, part, k)
  {
    assert forall i :: lo <= i < hi ==> s[lo..hi][i - lo] == s[i];
  }

  lemma ClipAddsNothing(s: string, n: nat, part: string)
    requires Contains(Clip(s, n), part)
    ensures Contains(s, part)
  {
    var clipped := Clip(s, n);
    var k :| 0 <= k <= |clipped| - |part| && OccursAt(clipped, part, k);
    if |s| > n {
      SliceOccurs(s, 0, n, part, k);
    }
  }

  lemma ResetEnds(s: string, k: int)
    requires OccursAt(s, RESET, k)
    ensures |RESET| == 7 && s[k] == '[' && s[k + 6] == ']'
  {
    assert s[k + 0] == RESET[0] && s[k + 6] == RESET[6];
  }

  lemma TrimKeepsReset(s: string)
    ensures Contains(s, RESET) <==> Contains(Trim(s), RESET)
  {
    var lo := FrontOf(s, 0);
    var hi := BackOf(s, lo, |s|);
    if k :| OccursAt(s, RESET, k) {
      ResetEnds(s, k);
      assert lo <= k && k + 7 <= hi;
      SliceOccurs(s, lo, hi, RESET, k);
    }
    if k :| OccursAt(Trim(s), RESET, k) {
      SliceOccurs(s, lo, hi, RESET, lo + k);
    }
  }

  /** The command text never passes: not when it is among what is read, nor in what comes out. */
  lemma ResetNeverPasses(raw: string, cleanLen: nat, x: Option<string>)
    requires Answer(raw, cleanLen, x)
    ensures Contains(Visible(raw), RESET) ==> x == None
    ensures x.Some? ==> !Contains(x.value, RESET)
  {
    hide LooksLikeFrame, Contains, Visible, Trim, Digits, Clip;
    var text := Trim(Visible(raw));
    TrimKeepsReset(Visible(raw));
    if x.Some? {
      if LooksLikeFrame(text) {
        FrameAnswer(raw, cleanLen, x);
        DigitsAreNotReset(x.value);
      } else {
        if Contains(x.value, RESET) {
          ClipAddsNothing(text, cleanLen - 1, RESET);
        }
      }
    }
  }

  lemma {:induction false} AllPrintable(s: string)
    requires forall k :: 0 <= k < |s| ==> IsPrintable(s[k])
    ensures Filtered(s) == s
  {
    if s != "" {
      AllPrintable(s[..|s| - 1]);
    }
  }

  lemma Occurs(s: string, part: string, k: int)
    requires OccursAt(s, part, k)
    ensures Contains(s, part)
  {
  }

  lemma OnlyFirst63(head: string, tail: string)
    requires |head| == 63 && forall k :: 0 <= k < |head + tail| ==> IsPrintable((head + tail)[k])
    ensures Visible(head + tail) == head
  {
    var raw := head + tail;
    assert EndFrom(raw, 0) == |raw|;
    assert raw[..|raw|] == raw;
    AllPrintable(raw);
  }

  /** Exactly when a text is refused: no room, nothing but blanks, the command text among the first 63
      printable characters, or a scanner frame without six digits in a row.  A command text anywhere else
      does not count. */
  lemma RefusedIff(raw: string, cleanLen: nat, x: Option<string>)
    requires Answer(raw, cleanLen, x)
    ensures var text := Trim(Visible(raw));
      x == None <==>
        || cleanLen == 0 || text == "" || Contains(Visible(raw), "[RESET]")
        || (LooksLikeFrame(text) && !exists c, d :: 6 <= d - c && Digits(text, c, d))
  {
    hide LooksLikeFrame, Contains, Visible, Trim, Digits;
    TrimKeepsReset(Visible(raw));
    var text := Trim(Visible(raw));
    if cleanLen > 0 && LooksLikeFrame(text) && !Contains(text, RESET) {
      FrameAnswer(raw, cleanLen, x);
    }
  }

  /** So behind any 63 printable characters the command text is not noticed: what is before it comes out. */
  lemma LateResetPasses(head: string)
    requires |head| == 63 && forall k :: 0 <= k < |head| ==> IsPrintable(head[k])
    requires Trim(head) != "" && !Contains(head, RESET) && !LooksLikeFrame(Trim(head))
    ensures Contains(head + RESET, RESET) && Answer(head + RESET, 64, Some(Trim(head)))
  {
    hide Contains, LooksLikeFrame;
    Occurs(head + RESET, RESET, 63);
    OnlyFirst63(head, RESET);
    TrimKeepsReset(head);
  }

  lemma OnlyOneLetter(s: string, part: string)
    requires part != "" && forall k :: 0 <= k < |s| ==> s[k] != part[0]
    ensures !Contains(s, part)
  {
    if k :| OccursAt(s, part, k) {
      OccursFrom(s, part, k);
      assert false;
    }
  }

  lemma LateResetExample()
    ensures Answer(seq(63, _ => 'a') + RESET, 64, Some(seq(63, _ => 'a')))
  {
    hide Contains;
    var head := seq(63, _ => 'a');
    OnlyOneLetter(head, RESET);
    OnlyOneLetter(head, "SCNENA");
    OnlyOneLetter(head, "SCNMOD");
    OnlyOneLetter(head, "RRDENA");
    OnlyOneLetter(head, "CIDENA");
    OnlyOneLetter(head, "RRDDUR");
    assert Trim(head) == head;
    LateResetPasses(head);
  }
}
