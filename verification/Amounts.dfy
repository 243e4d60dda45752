/** What masking does to a decimal amount in the middle of a text. The masker means to leave amounts alone;
    this is exactly when it does. */
module Amounts {
  import opened Domain
  import opened Masker

  predicate Substituted(p: Pattern) { p.Email? || p.PhoneNumber? || p.IdRun? }

  /** The substitution copies every position of the middle part. */
  ghost predicate Kept(p: Pattern, before: Glyphs, mid: Glyphs, after: Glyphs)
    requires Substituted(p)
  {
    AllCopied(p, before + mid + after, |before|, |before| + |mid|)
  }

  ghost predicate AllCopied(p: Pattern, s: Glyphs, lo: nat, hi: nat)
    requires Substituted(p)
  {
    forall x: nat :: lo <= x < hi ==> Copied(Ends(p, s), s, 0, x)
  }

  // ---------- the scan of a part of a text ----------

  /** Matches that end within the beginning `t` of a text are those of `t`. */
  ghost predicate PrefixAgrees(p: Pattern, t: Glyphs, s: Glyphs)
    requires Substituted(p)
  {
    && t <= s
    && forall i: nat :: i < |t| && (MatchEnd(p, s, i).Some? ==> MatchEnd(p, s, i).value <= |t|) ==>
         MatchEnd(p, t, i) == MatchEnd(p, s, i)
  }

  function Shifted(r: Option<nat>, n: nat): Option<nat> {
    if r.Some? then Some(n + r.value) else None
  }

  /** Matches that start in the end `q` of a text are those of `q`. */
  ghost predicate SuffixAgrees(p: Pattern, front: Glyphs, q: Glyphs)
    requires Substituted(p)
  {
    forall j: nat :: |front| <= j < |front + q| ==>
      MatchEnd(p, front + q, j) == Shifted(MatchEnd(p, q, j - |front|), |front|)
  }

  lemma MatchesStay(p: Pattern, t: Glyphs, s: Glyphs, i: nat, j: nat)
    requires SelfContained(p) && t <= s && i <= j <= |t|
    ensures IsMatch(p, t, i, j) <==> IsMatch(p, s, i, j)
  {
    assert t[i..j] == s[i..j];
    if IsMatch(p, t, i, j) {
      MatchMoves(p, t, i, j, s, i);
    }
    if IsMatch(p, s, i, j) {
      MatchMoves(p, s, i, j, t, i);
    }
  }

  lemma FoundIsMatch(p: Pattern, s: Glyphs, i: nat)
    requires Substituted(p) && i <= |s| && MatchEnd(p, s, i).Some?
    ensures IsMatch(p, s, i, MatchEnd(p, s, i).value)
  {
    MatchEndIsLongest(p, s, i);
  }

  lemma MatchIsFound(p: Pattern, s: Glyphs, i: nat, j: nat)
    requires Substituted(p) && i <= |s| && IsMatch(p, s, i, j)
    ensures MatchEnd(p, s, i).Some? && j <= MatchEnd(p, s, i).value
  {
    MatchEndIsLongest(p, s, i);
  }

  lemma MatchEndStays(p: Pattern, t: Glyphs, s: Glyphs, i: nat)
    requires (p.Email? || p.PhoneNumber?) && t <= s && i < |t|
    requires MatchEnd(p, s, i).Some? ==> MatchEnd(p, s, i).value <= |t|
    ensures MatchEnd(p, t, i) == MatchEnd(p, s, i)
  {
    var short, long := MatchEnd(p, t, i), MatchEnd(p, s, i);
    if short.Some? {
      FoundIsMatch(p, t, i);
      MatchesStay(p, t, s, i, short.value);
      MatchIsFound(p, s, i, short.value);
    }
    if long.Some? {
      FoundIsMatch(p, s, i);
      MatchesStay(p, t, s, i, long.value);
      MatchIsFound(p, t, i, long.value);
    }
  }

  lemma PrefixesAgree(p: Pattern, t: Glyphs, s: Glyphs)
    requires (p.Email? || p.PhoneNumber?) && t <= s
    ensures PrefixAgrees(p, t, s)
  {
    forall i: nat | i < |t| && (MatchEnd(p, s, i).Some? ==> MatchEnd(p, s, i).value <= |t|)
      ensures MatchEnd(p, t, i) == MatchEnd(p, s, i)
    {
      MatchEndStays(p, t, s, i);
    }
  }

  lemma MatchesShift(p: Pattern, front: Glyphs, q: Glyphs, i: nat, j: nat)
    requires SelfContained(p) && i <= j <= |q|
    ensures IsMatch(p, front + q, |front| + i, |front| + j) <==> IsMatch(p, q, i, j)
  {
    var s, n := front + q, |front|;
    assert s[n + i..n + j] == q[i..j];
    if IsMatch(p, q, i, j) {
      MatchMoves(p, q, i, j, s, n + i);
    }
    if IsMatch(p, s, n + i, n + j) {
      MatchMoves(p, s, n + i, n + j, q, i);
    }
  }

  lemma MatchEndShiftsUp(p: Pattern, front: Glyphs, q: Glyphs, i: nat)
    requires (p.Email? || p.PhoneNumber?) && i < |q| && MatchEnd(p, q, i).Some?
    ensures MatchEnd(p, front + q, |front| + i).Some?
    ensures |front| + MatchEnd(p, q, i).value <= MatchEnd(p, front + q, |front| + i).value
  {
    FoundIsMatch(p, q, i);
    MatchesShift(p, front, q, i, MatchEnd(p, q, i).value);
    MatchIsFound(p, front + q, |front| + i, |front| + MatchEnd(p, q, i).value);
  }

  lemma MatchEndShiftsDown(p: Pattern, front: Glyphs, q: Glyphs, i: nat)
    requires (p.Email? || p.PhoneNumber?) && i < |q| && MatchEnd(p, front + q, |front| + i).Some?
    ensures MatchEnd(p, q, i).Some?
    ensures MatchEnd(p, front + q, |front| + i).value <= |front| + MatchEnd(p, q, i).value
  {
    var j := MatchEnd(p, front + q, |front| + i).value - |front|;
    FoundIsMatch(p, front + q, |front| + i);
    MatchesShift(p, front, q, i, j);
    MatchIsFound(p, q, i, j);
  }

  lemma MatchEndShifts(p: Pattern, front: Glyphs, q: Glyphs, i: nat)
    requires (p.Email? || p.PhoneNumber?) && i < |q|
    ensures MatchEnd(p, front + q, |front| + i) == Shifted(MatchEnd(p, q, i), |front|)
  {
    if MatchEnd(p, q, i).Some? {
      MatchEndShiftsUp(p, front, q, i);
    }
    if MatchEnd(p, front + q, |front| + i).Some? {
      MatchEndShiftsDown(p, front, q, i);
    }
  }

  lemma SuffixesAgree(p: Pattern, front: Glyphs, q: Glyphs)
    requires p.Email? || p.PhoneNumber?
    ensures SuffixAgrees(p, front, q)
  {
    forall j: nat | |front| <= j < |front + q|
      ensures MatchEnd(p, front + q, j) == Shifted(MatchEnd(p, q, j - |front|), |front|)
    {
      MatchEndShifts(p, front, q, j - |front|);
      assert |front| + (j - |front|) == j;
    }
  }

  lemma ScanStep(ends: seq<Option<nat>>, ph: Glyphs, s: Glyphs, i: nat)
    requires IsTable(ends, s) && i < |s|
    ensures Replace(ends, ph, s, i) ==
            (if ends[i].Some? then ph else [s[i]]) + Replace(ends, ph, s, Next(ends, s, i))
  {
  }

  lemma Associates(a: Glyphs, b: Glyphs, c: Glyphs)
    ensures (a + b) + c == a + (b + c)
  {
  }

  /** Scans of a text and of its beginning, as long as the first reaches the end of the beginning. */
  lemma {:induction false} CutScan(ends: seq<Option<nat>>, s: Glyphs, ends': seq<Option<nat>>, t: Glyphs, ph: Glyphs,
                                   i: nat)
    requires IsTable(ends, s) && IsTable(ends', t) && t <= s && i <= |t| < |s| && Copied(ends, s, i, |t|)
    requires forall k :: 0 <= k < |t| && (ends[k].Some? ==> ends[k].value <= |t|) ==> ends'[k] == ends[k]
    ensures Replace(ends, ph, s, i) == Replace(ends', ph, t, i) + Replace(ends, ph, s, |t|)
    decreases |t| - i
  {
    if i < |t| {
      var next := Next(ends, s, i);
      CopiedIsUnmatched(ends, s, next, |t|);
      assert ends'[i] == ends[i] && t[i] == s[i];
      CutScan(ends, s, ends', t, ph, next);
      ScanStep(ends, ph, s, i);
      ScanStep(ends', ph, t, i);
      Associates(if ends[i].Some? then ph else [s[i]], Replace(ends', ph, t, next), Replace(ends, ph, s, |t|));
    }
  }

  lemma PrefixScan(p: Pattern, t: Glyphs, s: Glyphs)
    requires Substituted(p) && PrefixAgrees(p, t, s) && |t| < |s| && Copied(Ends(p, s), s, 0, |t|)
    ensures Sub(p, s) == Sub(p, t) + Replace(Ends(p, s), Placeholder(p), s, |t|)
  {
    var ends, ends' := Ends(p, s), Ends(p, t);
    forall k | 0 <= k < |t| && (ends[k].Some? ==> ends[k].value <= |t|) ensures ends'[k] == ends[k] {
      assert ends[k] == MatchEnd(p, s, k) && ends'[k] == MatchEnd(p, t, k);
    }
    CutScan(ends, s, ends', t, Placeholder(p), 0);
  }

  /** The end of a text from `n` on reads as `q`, matches included. */
  ghost predicate Mirrors(ends: seq<Option<nat>>, s: Glyphs, ends': seq<Option<nat>>, q: Glyphs, n: nat) {
    && IsTable(ends, s) && IsTable(ends', q) && n + |q| == |s|
    && forall j :: n <= j < |s| ==> s[j] == q[j - n] && ends[j] == Shifted(ends'[j - n], n)
  }

  lemma MirrorsAt(ends: seq<Option<nat>>, s: Glyphs, ends': seq<Option<nat>>, q: Glyphs, n: nat, j: nat)
    requires Mirrors(ends, s, ends', q, n) && n <= j < |s|
    ensures s[j] == q[j - n] && ends[j].Some? == ends'[j - n].Some?
    ensures Next(ends, s, j) == n + Next(ends', q, j - n)
  {
  }

  /** Scans of a text and of its end. */
  lemma {:induction false} ShiftedScan(ends: seq<Option<nat>>, s: Glyphs, ends': seq<Option<nat>>, q: Glyphs,
                                       ph: Glyphs, n: nat, i: nat)
    requires Mirrors(ends, s, ends', q, n) && i <= |q|
    ensures Replace(ends, ph, s, n + i) == Replace(ends', ph, q, i)
    decreases |q| - i
  {
    if i < |q| {
      MirrorsAt(ends, s, ends', q, n, n + i);
      ShiftedScan(ends, s, ends', q, ph, n, Next(ends', q, i));
      ScanStep(ends, ph, s, n + i);
      ScanStep(ends', ph, q, i);
    }
  }

  lemma EndAt(p: Pattern, s: Glyphs, i: nat)
    requires Substituted(p) && i < |s|
    ensures Ends(p, s)[i] == MatchEnd(p, s, i)
  {
  }

  lemma SuffixMirrors(p: Pattern, front: Glyphs, q: Glyphs)
    requires Substituted(p) && SuffixAgrees(p, front, q)
    ensures Mirrors(Ends(p, front + q), front + q, Ends(p, q), q, |front|)
  {
    forall j: nat | |front| <= j < |front + q|
      ensures Ends(p, front + q)[j] == Shifted(Ends(p, q)[j - |front|], |front|)
    {
      EndAt(p, front + q, j);
      EndAt(p, q, j - |front|);
    }
  }

  lemma SuffixScan(p: Pattern, front: Glyphs, q: Glyphs)
    requires Substituted(p) && SuffixAgrees(p, front, q)
    ensures Replace(Ends(p, front + q), Placeholder(p), front + q, |front|) == Sub(p, q)
  {
    SuffixMirrors(p, front, q);
    ShiftedScan(Ends(p, front + q), front + q, Ends(p, q), q, Placeholder(p), |front|, 0);
  }

  lemma {:induction false} UnmatchedIsCopied(ends: seq<Option<nat>>, ph: Glyphs, s: Glyphs, i: nat, j: nat)
    requires IsTable(ends, s) && i <= j <= |s| && forall x :: i <= x < j ==> ends[x].None?
    ensures Replace(ends, ph, s, i) == s[i..j] + Replace(ends, ph, s, j)
    decreases j - i
  {
    if i < j {
      var rest := Replace(ends, ph, s, j);
      UnmatchedIsCopied(ends, ph, s, i + 1, j);
      assert Next(ends, s, i) == i + 1;
      assert [s[i]] + (s[i + 1..j] + rest) == ([s[i]] + s[i + 1..j]) + rest;
      assert s[i..j] == [s[i]] + s[i + 1..j];
    } else {
      assert s[i..j] == [];
    }
  }

  /** Around a part that is kept, a substitution works on the two sides apart. */
  lemma KeptSplits(p: Pattern, before: Glyphs, mid: Glyphs, after: Glyphs)
    requires Substituted(p) && mid != [] && Kept(p, before, mid, after)
    requires PrefixAgrees(p, before, before + mid + after) && SuffixAgrees(p, before + mid, after)
    ensures Sub(p, before + mid + after) == Sub(p, before) + mid + Sub(p, after)
  {
    var s, lo, hi := before + mid + after, |before|, |before| + |mid|;
    forall x: nat | lo <= x < hi ensures Ends(p, s)[x].None? {
      CopiedIsUnmatched(Ends(p, s), s, 0, x);
    }
    PrefixScan(p, before, s);
    UnmatchedIsCopied(Ends(p, s), Placeholder(p), s, lo, hi);
    SuffixScan(p, before + mid, after);
    assert s[lo..hi] == mid;
  }

  lemma {:induction false} LastGlyph(ends: seq<Option<nat>>, ph: Glyphs, s: Glyphs, i: nat)
    requires IsTable(ends, s) && i < |s| && ph != []
    ensures var out := Replace(ends, ph, s, i);
            && out != []
            && out[|out| - 1] == if Copied(ends, s, i, |s| - 1) then s[|s| - 1] else ph[|ph| - 1]
    decreases |s| - i
  {
    var next := Next(ends, s, i);
    if next < |s| {
      LastGlyph(ends, ph, s, next);
    }
  }

  predicate EndsInDigit(s: Glyphs) { s != [] && s[|s| - 1].Digit? }
  predicate StartsWithDigit(s: Glyphs) { s != [] && s[0].Digit? }

  /** A substitution puts no digit at either end of a text. */
  lemma NoDigitAtTheEnds(p: Pattern, s: Glyphs)
    requires Substituted(p)
    ensures EndsInDigit(Sub(p, s)) ==> EndsInDigit(s)
    ensures StartsWithDigit(Sub(p, s)) ==> StartsWithDigit(s)
  {
    if s != [] {
      LastGlyph(Ends(p, s), Placeholder(p), s, 0);
    }
  }

  // ---------- the amount ----------

  /** An amount in a text: its parts are whole runs of digits. */
  ghost predicate IsAmount(before: Glyphs, whole: Glyphs, fraction: Glyphs, after: Glyphs) {
    && whole != [] && fraction != []
    && AllIn(Digits, whole, 0, |whole|) && AllIn(Digits, fraction, 0, |fraction|)
    && !EndsInDigit(before) && !StartsWithDigit(after)
  }

  function Decimal(whole: Glyphs, fraction: Glyphs): Glyphs {
    whole + [Dot] + fraction
  }

  // ---------- the e-mail substitution ----------

  /** A host, a dot and a tail fill the stretch from `i` to `j`. */
  ghost predicate IsDomain(s: Glyphs, i: nat, j: nat) {
    i < j <= |s| && AllIn(Tail, s, i, j) && s[i] != Dot && exists b: nat :: i < b < j - 1 && s[b] == Dot
  }

  /** The at sign at `a` has a local part before it: a local glyph that is not the end of an earlier e-mail. */
  ghost predicate LiveAt(s: Glyphs, a: nat)
    decreases a
  {
    && 0 < a < |s| && s[a] == At && InLocal(s[a - 1])
    && !(exists c: nat :: c < a && LiveAt(s, c) && IsDomain(s, c + 1, a))
  }

  /** An e-mail that began in the text runs up to its end: from a live at sign on there are only glyphs of a
      domain, so that digits, a dot and digits behind them complete it. */
  ghost predicate EmailRunsOn(before: Glyphs) {
    exists a: nat ::
      && a < |before| && LiveAt(before, a) && AllIn(Tail, before, a + 1, |before|)
      && (a + 1 < |before| ==> before[a + 1] != Dot)
  }

  /** An e-mail match reaches the amount: one starts at it, or one before it runs into it. */
  ghost predicate EmailTakes(before: Glyphs, amount: Glyphs, after: Glyphs) {
    (exists j: nat :: IsMatch(Email, amount + after, 0, j)) || EmailRunsOn(before)
  }

  lemma {:induction false} CopiedInPrefix(p: Pattern, t: Glyphs, s: Glyphs, i: nat, x: nat)
    requires Substituted(p) && PrefixAgrees(p, t, s) && i <= |t| && x < |t| && Copied(Ends(p, s), s, i, x)
    ensures Copied(Ends(p, t), t, i, x)
    decreases |t| - i
  {
    CopiedIsUnmatched(Ends(p, s), s, i, x);
    if !(Ends(p, s)[i].None? && x == i) {
      var next := Next(Ends(p, s), s, i);
      CopiedIsUnmatched(Ends(p, s), s, next, x);
      assert MatchEnd(p, t, i) == MatchEnd(p, s, i);
      CopiedInPrefix(p, t, s, next, x);
    } else {
      assert MatchEnd(p, t, i) == MatchEnd(p, s, i);
    }
  }

  lemma {:induction false} CopiedGoesOn(ends: seq<Option<nat>>, s: Glyphs, i: nat, x: nat)
    requires IsTable(ends, s) && i <= |s| && Copied(ends, s, i, x) && x + 1 < |s| && ends[x + 1].None?
    ensures Copied(ends, s, i, x + 1)
    decreases |s| - i
  {
    if !(ends[i].None? && x == i) {
      CopiedGoesOn(ends, s, Next(ends, s, i), x);
    }
  }

  lemma {:induction false} RunEndJoins(c: Class, s: Glyphs, i: nat, j: nat)
    requires i <= j <= |s| && AllIn(c, s, i, j)
    ensures RunEnd(c, s, i) == RunEnd(c, s, j)
    decreases j - i
  {
    if i < j {
      assert In(c, s[i]);
      RunEndJoins(c, s, i + 1, j);
    }
  }

  /** A run that stops within the beginning of a text stops there in the text. */
  lemma RunEndInLonger(c: Class, t: Glyphs, s: Glyphs, i: nat)
    requires t <= s && i <= |t| && RunEnd(c, t, i) < |t|
    ensures RunEnd(c, s, i) == RunEnd(c, t, i)
  {
    var e := RunEnd(c, t, i);
    assert forall k :: i <= k <= e ==> s[k] == t[k];
    RunEndIs(c, s, i, e);
  }

  /** No e-mail starts in a stretch of local glyphs when none starts at its end. */
  lemma NoEmailBefore(s: Glyphs, i: nat, j: nat)
    requires i <= j < |s| && AllIn(Local, s, i, j + 1) && EmailEnd(s, j).None?
    ensures EmailEnd(s, i).None?
  {
    RunEndJoins(Local, s, i, j);
    assert In(Local, s[j]);
  }

  /** `t` ends in an amount at `lo` with its dot at `dot`. */
  ghost predicate AmountAt(t: Glyphs, lo: nat, dot: nat) {
    && lo < dot < |t| - 1 && t[lo].Digit? && t[dot] == Dot && t[|t| - 1].Digit?
    && forall k :: lo <= k < |t| ==> t[k] == Dot || t[k].Digit?
  }

  /** The host and the tail of a match whose at sign is before the amount do not go beyond the dot, if
      the match ends before the amount or there is none. */
  lemma EmailAfterAtInLonger(t: Glyphs, s: Glyphs, lo: nat, dot: nat, i: nat)
    requires t <= s && AmountAt(t, lo, dot) && i <= lo
    requires var a := RunEnd(Local, t, i); i < a < |t| && t[a].At?
    requires EmailEnd(t, i).Some? ==> EmailEnd(t, i).value <= lo
    ensures EmailEnd(s, i) == EmailEnd(t, i)
  {
    var a := RunEnd(Local, t, i);
    RunEndInLonger(Local, t, s, i);
    HostOfAnEmail(t, lo, dot, a);
    var b := RunEnd(Host, t, a + 1);
    RunEndInLonger(Host, t, s, a + 1);
    assert s[a] == t[a] && s[b] == t[b];
    if b > a + 1 && t[b].Dot? && RunEnd(Tail, t, b + 1) < |t| {
      RunEndInLonger(Tail, t, s, b + 1);
    }
  }

  /** Cutting a text after an amount changes no e-mail match that ends before the amount, and makes or
      breaks none, when none starts at the amount. */
  lemma EmailInLonger(t: Glyphs, s: Glyphs, lo: nat, dot: nat, i: nat)
    requires t <= s && AmountAt(t, lo, dot) && i <= lo && EmailEnd(s, lo).None?
    requires EmailEnd(t, i).Some? ==> EmailEnd(t, i).value <= lo
    ensures EmailEnd(s, i) == EmailEnd(t, i)
  {
    var a := RunEnd(Local, t, i);
    if a == |t| {
      forall k | i <= k < lo + 1 ensures In(Local, s[k]) {
        assert In(Local, t[k]) && s[k] == t[k];
      }
      NoEmailBefore(s, i, lo);
    } else if a > i && t[a].At? {
      EmailAfterAtInLonger(t, s, lo, dot, i);
    } else {
      RunEndInLonger(Local, t, s, i);
      assert s[a] == t[a];
    }
  }

  lemma HostOfAnEmail(t: Glyphs, lo: nat, dot: nat, a: nat)
    requires AmountAt(t, lo, dot) && a < |t| && t[a].At?
    ensures a < lo && RunEnd(Host, t, a + 1) <= dot
  {
    assert !In(Host, t[dot]);
  }

  lemma {:induction false} CopiedInLonger(t: Glyphs, s: Glyphs, lo: nat, dot: nat, i: nat)
    requires t <= s && AmountAt(t, lo, dot) && i <= lo && EmailEnd(s, lo).None? && Copied(Ends(Email, t), t, i, lo)
    ensures Copied(Ends(Email, s), s, i, lo)
    decreases lo - i
  {
    CopiedIsUnmatched(Ends(Email, t), t, i, lo);
    if i < lo {
      var next := Next(Ends(Email, t), t, i);
      CopiedIsUnmatched(Ends(Email, t), t, next, lo);
      EmailInLonger(t, s, lo, dot, i);
      CopiedInLonger(t, s, lo, dot, next);
    }
  }

  /** An e-mail match that reaches the amount from before goes on to its end. */
  lemma FirstIsCopiedWithLast(t: Glyphs, lo: nat, dot: nat)
    requires AmountAt(t, lo, dot) && Copied(Ends(Email, t), t, 0, |t| - 1)
    ensures Copied(Ends(Email, t), t, 0, lo)
  {
    if !Copied(Ends(Email, t), t, 0, lo) {
      var y := ReplacedIsMatched(Ends(Email, t), t, 0, lo);
      assert forall k :: lo <= k < |t| ==> In(Tail, t[k]);
      EmailEndsItsTail(t, y);
    }
  }

  lemma EmailEndsItsTail(s: Glyphs, i: nat)
    requires i <= |s| && EmailEnd(s, i).Some?
    ensures EmailEnd(s, i).value < |s| ==> !In(Tail, s[EmailEnd(s, i).value])
  {
  }

  lemma NoEmailInside(s: Glyphs, lo: nat, x: nat)
    requires lo <= x < |s| && AllIn(Local, s, lo, x + 1) && EmailEnd(s, lo).None?
    ensures EmailEnd(s, x).None?
  {
    RunEndJoins(Local, s, lo, x);
    assert In(Local, s[x]);
  }

  lemma {:induction false} CopiedThrough(ends: seq<Option<nat>>, s: Glyphs, lo: nat, x: nat)
    requires IsTable(ends, s) && lo <= x < |s| && Copied(ends, s, 0, lo)
    requires forall k :: lo <= k <= x ==> ends[k].None?
    ensures Copied(ends, s, 0, x)
    decreases x
  {
    if x > lo {
      CopiedThrough(ends, s, lo, x - 1);
      CopiedGoesOn(ends, s, 0, x - 1);
    }
  }

  lemma AmountFollows(s: Glyphs, lo: nat, hi: nat)
    requires lo < hi <= |s| && AllIn(Local, s, lo, hi)
    requires EmailEnd(s, lo).None? && Copied(Ends(Email, s), s, 0, lo)
    ensures AllCopied(Email, s, lo, hi)
  {
    forall k: nat | lo <= k < hi ensures Ends(Email, s)[k].None? {
      NoEmailInside(s, lo, k);
      EndAt(Email, s, k);
    }
    forall x: nat | lo <= x < hi ensures Copied(Ends(Email, s), s, 0, x) {
      CopiedThrough(Ends(Email, s), s, lo, x);
    }
  }

  lemma EmailStartsAtTheAmount(before: Glyphs, amount: Glyphs, after: Glyphs)
    requires amount != []
    ensures EmailEnd(before + amount + after, |before|).Some? <==> exists j: nat :: IsMatch(Email, amount + after, 0, j)
  {
    var q := amount + after;
    SuffixesAgree(Email, before, q);
    assert before + q == before + amount + after;
    assert MatchEnd(Email, before + q, |before| + 0) == Shifted(MatchEnd(Email, q, 0), |before|);
    MatchEndIsLongest(Email, q, 0);
  }

  lemma AmountIsThere(before: Glyphs, whole: Glyphs, fraction: Glyphs, after: Glyphs)
    requires IsAmount(before, whole, fraction, after)
    ensures AmountAt(before + Decimal(whole, fraction), |before|, |before| + |whole|)
    ensures EndsInDigit(before + Decimal(whole, fraction))
  {
    var t, n := before + Decimal(whole, fraction), |before|;
    forall k | n <= k < |t| ensures t[k] == Dot || t[k].Digit? {
      assert k < n + |whole| ==> t[k] == whole[k - n] && In(Digits, whole[k - n]);
      assert k > n + |whole| ==> t[k] == fraction[k - n - |whole| - 1] && In(Digits, fraction[k - n - |whole| - 1]);
    }
    assert In(Digits, whole[0]) && t[n] == whole[0];
    assert In(Digits, fraction[|fraction| - 1]) && t[|t| - 1] == fraction[|fraction| - 1];
  }

  lemma LastStays(t: Glyphs, s: Glyphs)
    requires t <= s && EndsInDigit(t) && Copied(Ends(Email, s), s, 0, |t| - 1)
    ensures EndsInDigit(Sub(Email, t))
  {
    PrefixesAgree(Email, t, s);
    CopiedInPrefix(Email, t, s, 0, |t| - 1);
    LastGlyph(Ends(Email, t), Placeholder(Email), t, 0);
  }

  lemma KeptIsNotTaken(t: Glyphs, s: Glyphs, lo: nat, dot: nat)
    requires t <= s && AmountAt(t, lo, dot) && AllCopied(Email, s, lo, |t|)
    ensures EmailEnd(s, lo).None? && EndsInDigit(Sub(Email, t))
  {
    CopiedIsUnmatched(Ends(Email, s), s, 0, lo);
    LastStays(t, s);
  }

  lemma NotTakenIsKept(t: Glyphs, s: Glyphs, lo: nat, dot: nat)
    requires t <= s && AmountAt(t, lo, dot) && EmailEnd(s, lo).None? && EndsInDigit(Sub(Email, t))
    ensures AllCopied(Email, s, lo, |t|)
  {
    LastGlyph(Ends(Email, t), Placeholder(Email), t, 0);
    FirstIsCopiedWithLast(t, lo, dot);
    CopiedInLonger(t, s, lo, dot, 0);
    assert forall k :: lo <= k < |t| ==> s[k] == t[k];
    AmountFollows(s, lo, |t|);
  }

  // ---------- which at signs are live ----------

  /** The scan from `i` comes to position `y`. */
  ghost predicate Visits(ends: seq<Option<nat>>, s: Glyphs, i: nat, y: nat)
    requires IsTable(ends, s) && i <= |s|
    decreases |s| - i
  {
    i == y || (i < |s| && Visits(ends, s, Next(ends, s, i), y))
  }

  lemma {:induction false} VisitsAreAhead(ends: seq<Option<nat>>, s: Glyphs, i: nat, y: nat)
    requires IsTable(ends, s) && i <= |s| && Visits(ends, s, i, y)
    ensures i <= y <= |s|
    decreases |s| - i
  {
    if i != y {
      VisitsAreAhead(ends, s, Next(ends, s, i), y);
    }
  }

  /** Between a position the scan visits and the next one it visits none. */
  lemma {:induction false} NoVisitWithin(ends: seq<Option<nat>>, s: Glyphs, i: nat, y: nat, x: nat)
    requires IsTable(ends, s) && i <= |s| && Visits(ends, s, i, y) && y < |s| && y < x < Next(ends, s, y)
    ensures !Visits(ends, s, i, x)
    decreases |s| - i
  {
    if Visits(ends, s, i, x) {
      var next := Next(ends, s, i);
      if i == y {
        VisitsAreAhead(ends, s, next, x);
      } else {
        VisitsAreAhead(ends, s, next, y);
        NoVisitWithin(ends, s, next, y, x);
      }
    }
  }

  lemma {:induction false} CopiedIsVisited(ends: seq<Option<nat>>, s: Glyphs, i: nat, x: nat)
    requires IsTable(ends, s) && i <= |s| && Copied(ends, s, i, x)
    ensures Visits(ends, s, i, x)
    decreases |s| - i
  {
    if !(ends[i].None? && x == i) {
      CopiedIsVisited(ends, s, Next(ends, s, i), x);
    }
  }

  /** Every position is visited or passed over from one that is. */
  lemma {:induction false} PassedOver(ends: seq<Option<nat>>, s: Glyphs, i: nat, x: nat) returns (y: nat)
    requires IsTable(ends, s) && i <= x < |s|
    ensures Visits(ends, s, i, y) && i <= y <= x < Next(ends, s, y)
    decreases |s| - i
  {
    if x < Next(ends, s, i) {
      y := i;
    } else {
      y := PassedOver(ends, s, Next(ends, s, i), x);
    }
  }

  /** Where the parts of the greedy match from `y` are. */
  lemma PartsOfEmail(s: Glyphs, y: nat) returns (a: nat)
    requires y <= |s| && EmailEnd(s, y).Some?
    ensures var e := EmailEnd(s, y).value;
            && y < a < e <= |s| && AllIn(Local, s, y, a) && s[a] == At && IsDomain(s, a + 1, e)
            && (e < |s| ==> !In(Tail, s[e]))
  {
    a := RunEnd(Local, s, y);
    var b, e := RunEnd(Host, s, a + 1), EmailEnd(s, y).value;
    assert In(Host, s[a + 1]) && s[b] == Dot;
    forall k | a + 1 <= k < e ensures In(Tail, s[k]) {
      assert k < b ==> In(Host, s[k]);
    }
  }

  /** A local part, an at sign and a domain that stops before a glyph of no domain are matched as a whole. */
  lemma EmailIsWhole(s: Glyphs, y: nat, a: nat, e: nat)
    requires y < a < |s| && AllIn(Local, s, y, a) && s[a] == At && IsDomain(s, a + 1, e)
    requires e < |s| ==> !In(Tail, s[e])
    ensures EmailEnd(s, y) == Some(e)
  {
    RunEndIs(Local, s, y, a);
    var b := RunEnd(Host, s, a + 1);
    var d: nat :| a + 1 < d < e - 1 && s[d] == Dot;
    assert In(Tail, s[a + 1]) && In(Host, s[a + 1]);
    assert !In(Host, s[d]);
    assert In(Tail, s[b]) && s[b] == Dot;
    RunEndJoins(Tail, s, b + 1, e);
    assert RunEnd(Tail, s, e) == e;
  }

  /** The scan comes to a local part that ends at `a`. */
  ghost predicate PartIsVisited(s: Glyphs, a: nat)
    requires a <= |s|
  {
    exists y: nat :: y < a && Visits(Ends(Email, s), s, 0, y) && AllIn(Local, s, y, a)
  }

  /** A local glyph before an at sign is in a local part that the scan comes to, or ends a domain. */
  lemma PartOrDomain(s: Glyphs, a: nat) returns (c: nat)
    requires 0 < a < |s| && s[a] == At && InLocal(s[a - 1])
    ensures PartIsVisited(s, a) || (c < a && s[c] == At && PartIsVisited(s, c) && IsDomain(s, c + 1, a))
  {
    var ends := Ends(Email, s);
    var y := PassedOver(ends, s, 0, a - 1);
    c := a;
    if ends[y].Some? {
      EndAt(Email, s, y);
      c := PartsOfEmail(s, y);
      DomainHasNoAt(s, c + 1, ends[y].value, a);
    }
  }

  /** The scan goes from a local part over the domain behind it at once. */
  lemma DomainIsPassedOver(s: Glyphs, c: nat, a: nat)
    requires c < a < |s| && s[c] == At && s[a] == At && PartIsVisited(s, c) && IsDomain(s, c + 1, a)
    ensures !PartIsVisited(s, a)
  {
    var ends := Ends(Email, s);
    var z: nat :| z < c && Visits(ends, s, 0, z) && AllIn(Local, s, z, c);
    EmailIsWhole(s, z, c, a);
    EndAt(Email, s, z);
    assert !In(Local, s[c]);
    if y: nat :| y < a && Visits(ends, s, 0, y) && AllIn(Local, s, y, a) {
      NoVisitWithin(ends, s, 0, z, y);
    }
  }

  /** An at sign is live exactly when the scan comes to a local part that ends at it. */
  lemma {:induction false} LiveIsVisited(s: Glyphs, a: nat)
    requires a < |s| && s[a] == At
    ensures LiveAt(s, a) <==> PartIsVisited(s, a)
    decreases a
  {
    if LiveAt(s, a) {
      var c := PartOrDomain(s, a);
      if !PartIsVisited(s, a) {
        LiveIsVisited(s, c);
      }
    }
    if PartIsVisited(s, a) {
      LocalBefore(s, a);
      forall c: nat | c < a && LiveAt(s, c) ensures !IsDomain(s, c + 1, a) {
        LiveIsVisited(s, c);
        if IsDomain(s, c + 1, a) {
          DomainIsPassedOver(s, c, a);
        }
      }
    }
  }

  lemma LocalBefore(s: Glyphs, a: nat)
    requires a < |s| && PartIsVisited(s, a)
    ensures a > 0 && InLocal(s[a - 1])
  {
    var y: nat :| y < a && Visits(Ends(Email, s), s, 0, y) && AllIn(Local, s, y, a);
    assert In(Local, s[a - 1]);
  }

  lemma DomainHasNoAt(s: Glyphs, i: nat, j: nat, a: nat)
    requires IsDomain(s, i, j) && a < |s| && s[a] == At
    ensures a < i || a >= j
  {
    assert i <= a < j ==> In(Tail, s[a]);
  }

  lemma {:induction false} LiveStays(t: Glyphs, s: Glyphs, a: nat)
    requires t <= s && a < |t|
    ensures LiveAt(t, a) <==> LiveAt(s, a)
    decreases a
  {
    forall c: nat | c < a
      ensures LiveAt(t, c) && IsDomain(t, c + 1, a) <==> LiveAt(s, c) && IsDomain(s, c + 1, a)
    {
      LiveStays(t, s, c);
      DomainStays(t, s, c + 1, a);
    }
  }

  lemma DomainStays(t: Glyphs, s: Glyphs, i: nat, j: nat)
    requires t <= s && j <= |t|
    ensures IsDomain(t, i, j) <==> IsDomain(s, i, j)
  {
    assert forall k :: 0 <= k < |t| ==> s[k] == t[k];
    if IsDomain(s, i, j) {
      var b: nat :| i < b < j - 1 && s[b] == Dot;
      assert t[b] == Dot;
    }
  }

  /** An e-mail match from before reaches the amount exactly when one runs on up to it. */
  lemma ReachedExactlyWhen(before: Glyphs, whole: Glyphs, fraction: Glyphs)
    requires IsAmount(before, whole, fraction, [])
    ensures EmailRunsOn(before) <==> !EndsInDigit(Sub(Email, before + Decimal(whole, fraction)))
  {
    var t, lo, dot := before + Decimal(whole, fraction), |before|, |before| + |whole|;
    AmountIsThere(before, whole, fraction, []);
    LastGlyph(Ends(Email, t), Placeholder(Email), t, 0);
    if EmailRunsOn(before) {
      RunningEmailTakesTheAmount(before, t, dot);
    }
    if !EndsInDigit(Sub(Email, t)) {
      TakenAmountIsRunInto(before, t, dot);
    }
  }

  lemma RunningEmailTakesTheAmount(before: Glyphs, t: Glyphs, dot: nat)
    requires before <= t && AmountAt(t, |before|, dot) && EmailRunsOn(before)
    ensures !Copied(Ends(Email, t), t, 0, |t| - 1)
  {
    var ends, n := Ends(Email, t), |t| - 1;
    var a: nat :| && a < |before| && LiveAt(before, a) && AllIn(Tail, before, a + 1, |before|)
                  && (a + 1 < |before| ==> before[a + 1] != Dot);
    LiveStays(before, t, a);
    LiveIsVisited(t, a);
    var y: nat :| y < a && Visits(ends, t, 0, y) && AllIn(Local, t, y, a);
    forall k | a + 1 <= k < |t| ensures In(Tail, t[k]) {
      assert k < |before| ==> t[k] == before[k] && In(Tail, before[k]);
    }
    assert t[dot] == Dot && IsDomain(t, a + 1, |t|);
    EmailIsWhole(t, y, a, |t|);
    EndAt(Email, t, y);
    if Copied(ends, t, 0, n) {
      CopiedIsVisited(ends, t, 0, n);
      NoVisitWithin(ends, t, 0, y, n);
    }
  }

  lemma TakenAmountIsRunInto(before: Glyphs, t: Glyphs, dot: nat)
    requires before <= t && AmountAt(t, |before|, dot) && !Copied(Ends(Email, t), t, 0, |t| - 1)
    ensures EmailRunsOn(before)
  {
    var ends, n := Ends(Email, t), |t| - 1;
    var y := PassedOver(ends, t, 0, n);
    if ends[y].None? {
      VisitedIsCopied(ends, t, 0, y);
    }
    EndAt(Email, t, y);
    var a := PartsOfEmail(t, y);
    LiveIsVisited(t, a);
    LiveStays(before, t, a);
    assert forall k :: a + 1 <= k < |before| ==> before[k] == t[k];
    assert a < |before| && AllIn(Tail, before, a + 1, |before|);
  }

  lemma {:induction false} VisitedIsCopied(ends: seq<Option<nat>>, s: Glyphs, i: nat, y: nat)
    requires IsTable(ends, s) && i <= |s| && Visits(ends, s, i, y) && y < |s| && ends[y].None?
    ensures Copied(ends, s, i, y)
    decreases |s| - i
  {
    if i != y {
      VisitedIsCopied(ends, s, Next(ends, s, i), y);
    }
  }

  /** The e-mail substitution leaves the amount in place exactly when no e-mail match reaches it. */
  lemma EmailKeepsExactlyWhen(before: Glyphs, whole: Glyphs, fraction: Glyphs, after: Glyphs)
    requires IsAmount(before, whole, fraction, after)
    ensures Kept(Email, before, Decimal(whole, fraction), after) <==>
            !EmailTakes(before, Decimal(whole, fraction), after)
  {
    var amount := Decimal(whole, fraction);
    var t, lo, dot := before + amount, |before|, |before| + |whole|;
    EmailStartsAtTheAmount(before, amount, after);
    ReachedExactlyWhen(before, whole, fraction);
    AmountIsThere(before, whole, fraction, after);
    if Kept(Email, before, amount, after) {
      KeptIsNotTaken(t, t + after, lo, dot);
    }
    if !EmailTakes(before, amount, after) {
      NotTakenIsKept(t, t + after, lo, dot);
    }
  }

  // ---------- the phone substitution ----------

  /** Eight or more glyphs of a phone number, from a digit to the end. */
  ghost predicate LongLeft(t: Glyphs) {
    exists k: nat :: k + 8 <= |t| && t[k].Digit? && AllIn(Phone, t, k, |t|)
  }

  /** Eight or more glyphs of a phone number, from the start to a digit. */
  ghost predicate LongRight(q: Glyphs) {
    exists k: nat :: 8 <= k <= |q| && q[k - 1].Digit? && AllIn(Phone, q, 0, k)
  }

  lemma TakenIsPhone(s: Glyphs, y: nat)
    requires y <= |s| && MatchEnd(PhoneNumber, s, y).Some?
    ensures IsPhoneAt(s, y, MatchEnd(PhoneNumber, s, y).value)
  {
    MatchEndIsLongest(PhoneNumber, s, y);
  }

  /** A phone match goes on over the phone glyphs behind it to any later digit. */
  lemma PhoneGoesOn(s: Glyphs, y: nat, e: nat, k: nat, n: nat)
    requires IsPhoneAt(s, y, e) && k < e <= n <= |s| && AllIn(Phone, s, k, n) && s[n - 1].Digit?
    ensures IsMatch(PhoneNumber, s, y, n)
  {
    PhoneGlyphs(s, y, e);
    assert forall i :: PhoneStart(s, y) <= i < n ==> i < e || In(Phone, s[i]);
    assert IsPhoneAt(s, y, n);
  }

  /** A run of phone glyphs from `k` to `n`, digits at both ends, is matched as a whole. */
  lemma LongRunIsTaken(s: Glyphs, k: nat, n: nat)
    requires k + 8 <= n <= |s| && s[k].Digit? && s[n - 1].Digit? && AllIn(Phone, s, k, n)
    ensures !Copied(Ends(PhoneNumber, s), s, 0, n - 1)
  {
    FirstIsTakenWithRun(s, k, n);
    var y := ReplacedIsMatched(Ends(PhoneNumber, s), s, 0, k);
    var e := MatchEnd(PhoneNumber, s, y).value;
    TakenIsPhone(s, y);
    if e < n {
      PhoneGoesOn(s, y, e, k, n);
      MatchEndIsLongest(PhoneNumber, s, y);
    }
  }

  lemma PhoneGlyphs(s: Glyphs, i: nat, j: nat)
    requires IsPhoneAt(s, i, j)
    ensures AllIn(Phone, s, PhoneStart(s, i), j) && !s[j - 1].Dot?
    ensures forall k :: i <= k < j ==> s[k] == Plus || In(Phone, s[k])
  {
    var d := PhoneStart(s, i);
    assert forall k :: d <= k < j ==> k == d || k == j - 1 || In(Phone, s[k]);
  }

  /** `s` holds an amount from `lo` to `hi` with its dot at `dot`. */
  ghost predicate AmountIn(s: Glyphs, lo: nat, dot: nat, hi: nat) {
    && lo < dot < hi - 1 && hi <= |s| && s[dot] == Dot
    && AllIn(Digits, s, lo, dot) && AllIn(Digits, s, dot + 1, hi)
    && (lo > 0 ==> !s[lo - 1].Digit?) && (hi < |s| ==> !s[hi].Digit?)
  }

  lemma AmountIsIn(before: Glyphs, whole: Glyphs, fraction: Glyphs, after: Glyphs)
    requires IsAmount(before, whole, fraction, after)
    ensures AmountIn(before + Decimal(whole, fraction) + after, |before|, |before| + |whole|,
                     |before| + |whole| + 1 + |fraction|)
  {
    var s, lo, dot := before + Decimal(whole, fraction) + after, |before|, |before| + |whole|;
    var hi := dot + 1 + |fraction|;
    forall k | lo <= k < dot ensures In(Digits, s[k]) {
      assert s[k] == whole[k - lo] && In(Digits, whole[k - lo]);
    }
    forall k | dot + 1 <= k < hi ensures In(Digits, s[k]) {
      assert s[k] == fraction[k - dot - 1] && In(Digits, fraction[k - dot - 1]);
    }
    assert hi < |s| ==> s[hi] == after[0];
  }

  /** A digit of the amount that is in a phone match lies in a long run on its side of the dot. */
  lemma TakenOnTheLeft(s: Glyphs, lo: nat, dot: nat, hi: nat, i: nat, j: nat)
    requires AmountIn(s, lo, dot, hi) && IsPhoneAt(s, i, j) && i < dot && lo < j
    ensures LongLeft(s[..dot])
  {
    var t, d := s[..dot], PhoneStart(s, i);
    PhoneGlyphs(s, i, j);
    assert j <= dot;
    forall k | d <= k < dot ensures In(Phone, t[k]) {
      assert k < j || In(Digits, s[k]);
    }
    assert d + 8 <= |t| && t[d].Digit? && AllIn(Phone, t, d, |t|);
  }

  lemma TakenOnTheRight(s: Glyphs, lo: nat, dot: nat, hi: nat, i: nat, j: nat)
    requires AmountIn(s, lo, dot, hi) && IsPhoneAt(s, i, j) && dot < i < hi
    ensures LongRight(s[dot + 1..])
  {
    var q, n := s[dot + 1..], j - dot - 1;
    PhoneGlyphs(s, i, j);
    assert In(Digits, s[i]);
    forall k | 0 <= k < n ensures In(Phone, q[k]) {
      assert q[k] == s[k + dot + 1];
      assert k + dot + 1 < i ==> In(Digits, s[k + dot + 1]);
    }
    assert 8 <= n <= |q| && q[n - 1].Digit? && AllIn(Phone, q, 0, n);
  }

  lemma TakenIsLong(s: Glyphs, lo: nat, dot: nat, hi: nat, x: nat)
    requires AmountIn(s, lo, dot, hi) && lo <= x < hi && !Copied(Ends(PhoneNumber, s), s, 0, x)
    ensures LongLeft(s[..dot]) || LongRight(s[dot + 1..])
  {
    var y := ReplacedIsMatched(Ends(PhoneNumber, s), s, 0, x);
    var e := Ends(PhoneNumber, s)[y].value;
    TakenIsPhone(s, y);
    PhoneGlyphs(s, y, e);
    if y < dot {
      TakenOnTheLeft(s, lo, dot, hi, y, e);
    } else {
      assert s[y] != Dot;
      TakenOnTheRight(s, lo, dot, hi, y, e);
    }
  }

  lemma LongLeftIsTaken(s: Glyphs, dot: nat)
    requires 0 < dot <= |s| && s[dot - 1].Digit? && LongLeft(s[..dot])
    ensures !Copied(Ends(PhoneNumber, s), s, 0, dot - 1)
  {
    var t := s[..dot];
    var k: nat :| k + 8 <= |t| && t[k].Digit? && AllIn(Phone, t, k, |t|);
    assert forall i :: k <= i < dot ==> s[i] == t[i];
    LongRunIsTaken(s, k, dot);
  }

  lemma LongRightIsTaken(s: Glyphs, n: nat)
    requires n < |s| && s[n].Digit? && LongRight(s[n..])
    ensures !Copied(Ends(PhoneNumber, s), s, 0, n)
  {
    var q := s[n..];
    var k: nat :| 8 <= k <= |q| && q[k - 1].Digit? && AllIn(Phone, q, 0, k);
    forall i | n <= i < n + k ensures In(Phone, s[i]) {
      assert s[i] == q[i - n];
    }
    assert s[n + k - 1] == q[k - 1];
    FirstIsTakenWithRun(s, n, n + k);
  }

  lemma PhoneKeepsInPlace(s: Glyphs, lo: nat, dot: nat, hi: nat)
    requires AmountIn(s, lo, dot, hi)
    ensures AllCopied(PhoneNumber, s, lo, hi) <==> !LongLeft(s[..dot]) && !LongRight(s[dot + 1..])
  {
    assert In(Digits, s[dot - 1]) && In(Digits, s[dot + 1]);
    if LongLeft(s[..dot]) {
      LongLeftIsTaken(s, dot);
    }
    if LongRight(s[dot + 1..]) {
      LongRightIsTaken(s, dot + 1);
    }
    if x: nat :| lo <= x < hi && !Copied(Ends(PhoneNumber, s), s, 0, x) {
      TakenIsLong(s, lo, dot, hi, x);
    }
  }

  /** The first digit of a long run is taken too. */
  lemma FirstIsTakenWithRun(s: Glyphs, k: nat, n: nat)
    requires k + 8 <= n <= |s| && s[k].Digit? && s[n - 1].Digit? && AllIn(Phone, s, k, n)
    ensures !Copied(Ends(PhoneNumber, s), s, 0, k)
  {
    assert IsPhoneAt(s, k, n);
    assert IsMatch(PhoneNumber, s, k, n);
    MatchEndIsLongest(PhoneNumber, s, k);
    if Copied(Ends(PhoneNumber, s), s, 0, k) {
      CopiedIsUnmatched(Ends(PhoneNumber, s), s, 0, k);
    }
  }

  // ---------- the identifier substitution ----------

  lemma LongSideIsTaken(s: Glyphs, i: nat, j: nat)
    requires IsMatch(IdRun, s, i, j)
    ensures !Copied(Ends(IdRun, s), s, 0, i)
  {
    MatchEndIsLongest(IdRun, s, i);
    if Copied(Ends(IdRun, s), s, 0, i) {
      CopiedIsUnmatched(Ends(IdRun, s), s, 0, i);
    }
  }

  lemma IdRunKeepsInPlace(s: Glyphs, lo: nat, dot: nat, hi: nat)
    requires AmountIn(s, lo, dot, hi)
    ensures AllCopied(IdRun, s, lo, hi) <==> dot - lo < 4 && hi - dot - 1 < 4
  {
    if dot - lo >= 4 {
      LongSideIsTaken(s, lo, dot);
    }
    if hi - dot - 1 >= 4 {
      LongSideIsTaken(s, dot + 1, hi);
    }
    if x: nat :| lo <= x < hi && !Copied(Ends(IdRun, s), s, 0, x) {
      var y := ReplacedIsMatched(Ends(IdRun, s), s, 0, x);
      var e := Ends(IdRun, s)[y].value;
      MatchEndIsLongest(IdRun, s, y);
      assert IsMatch(IdRun, s, y, e);
      assert forall k :: y <= k < e ==> In(Digits, s[k]);
    }
  }

  // ---------- the amount under the mask ----------

  /** All three substitutions in turn copy the amount. */
  ghost predicate Survives(before: Glyphs, amount: Glyphs, after: Glyphs) {
    var b1, a1 := Sub(Email, before), Sub(Email, after);
    var b2, a2 := Sub(PhoneNumber, b1), Sub(PhoneNumber, a1);
    Kept(Email, before, amount, after) && Kept(PhoneNumber, b1, amount, a1) && Kept(IdRun, b2, amount, a2)
  }

  lemma SidesOfTheDot(before: Glyphs, whole: Glyphs, fraction: Glyphs, after: Glyphs)
    ensures var s, dot := before + Decimal(whole, fraction) + after, |before| + |whole|;
            s[..dot] == before + whole && s[dot + 1..] == fraction + after
  {
  }

  lemma PhoneKeepsExactlyWhen(before: Glyphs, whole: Glyphs, fraction: Glyphs, after: Glyphs)
    requires IsAmount(before, whole, fraction, after)
    ensures Kept(PhoneNumber, before, Decimal(whole, fraction), after) <==>
            !LongLeft(before + whole) && !LongRight(fraction + after)
  {
    var amount, dot := Decimal(whole, fraction), |before| + |whole|;
    AmountIsIn(before, whole, fraction, after);
    SidesOfTheDot(before, whole, fraction, after);
    PhoneKeepsInPlace(before + amount + after, |before|, dot, |before| + |amount|);
  }

  lemma IdRunKeepsExactlyWhen(before: Glyphs, whole: Glyphs, fraction: Glyphs, after: Glyphs)
    requires IsAmount(before, whole, fraction, after)
    ensures Kept(IdRun, before, Decimal(whole, fraction), after) <==> |whole| < 4 && |fraction| < 4
  {
    var amount, dot := Decimal(whole, fraction), |before| + |whole|;
    var s, hi := before + amount + after, |before| + |amount|;
    AmountIsIn(before, whole, fraction, after);
    IdRunKeepsInPlace(s, |before|, dot, hi);
  }

  lemma StaysAnAmount(p: Pattern, before: Glyphs, whole: Glyphs, fraction: Glyphs, after: Glyphs)
    requires Substituted(p) && IsAmount(before, whole, fraction, after)
    ensures IsAmount(Sub(p, before), whole, fraction, Sub(p, after))
  {
    NoDigitAtTheEnds(p, before);
    NoDigitAtTheEnds(p, after);
  }

  /** Masking copies an amount in a text exactly when
      - no e-mail match reaches it,
      - the run of digits, spaces and dashes on either side of the dot, taken from its first digit to its
        last in the text without its e-mails, is shorter than eight, and
      - it has fewer than four digits on either side of the dot. */
  lemma AmountSurvives(before: Glyphs, whole: Glyphs, fraction: Glyphs, after: Glyphs)
    requires IsAmount(before, whole, fraction, after)
    ensures Survives(before, Decimal(whole, fraction), after) <==>
            && !EmailTakes(before, Decimal(whole, fraction), after)
            && !LongLeft(Sub(Email, before) + whole) && !LongRight(fraction + Sub(Email, after))
            && |whole| < 4 && |fraction| < 4
  {
    StaysAnAmount(Email, before, whole, fraction, after);
    StaysAnAmount(PhoneNumber, Sub(Email, before), whole, fraction, Sub(Email, after));
    EmailKeepsExactlyWhen(before, whole, fraction, after);
    PhoneKeepsExactlyWhen(Sub(Email, before), whole, fraction, Sub(Email, after));
    IdRunKeepsExactlyWhen(Sub(PhoneNumber, Sub(Email, before)), whole, fraction, Sub(PhoneNumber, Sub(Email, after)));
  }

  // ---------- and then the mask works on the two sides apart ----------

  lemma PatternKeptSplits(p: Pattern, before: Glyphs, mid: Glyphs, after: Glyphs)
    requires (p.Email? || p.PhoneNumber?) && mid != [] && Kept(p, before, mid, after)
    ensures Sub(p, before + mid + after) == Sub(p, before) + mid + Sub(p, after)
  {
    PrefixesAgree(p, before, before + mid + after);
    SuffixesAgree(p, before + mid, after);
    KeptSplits(p, before, mid, after);
  }

  lemma IdRunPrefixAgrees(t: Glyphs, s: Glyphs)
    requires t <= s && !EndsInDigit(t)
    ensures PrefixAgrees(IdRun, t, s)
  {
    forall i: nat | i < |t| ensures MatchEnd(IdRun, t, i) == MatchEnd(IdRun, s, i) {
      assert forall k :: 0 <= k < |t| ==> s[k] == t[k];
      assert !In(Digits, t[|t| - 1]);
      RunEndInLonger(Digits, t, s, i);
    }
  }

  lemma {:induction false} RunEndShifts(c: Class, front: Glyphs, q: Glyphs, i: nat)
    requires i <= |q|
    ensures RunEnd(c, front + q, |front| + i) == |front| + RunEnd(c, q, i)
    decreases |q| - i
  {
    if i < |q| {
      assert (front + q)[|front| + i] == q[i];
      RunEndShifts(c, front, q, i + 1);
    }
  }

  lemma IdRunSuffixAgrees(front: Glyphs, q: Glyphs)
    requires !StartsWithDigit(q)
    ensures SuffixAgrees(IdRun, front, q)
  {
    forall j: nat | |front| <= j < |front + q|
      ensures MatchEnd(IdRun, front + q, j) == Shifted(MatchEnd(IdRun, q, j - |front|), |front|)
    {
      var i := j - |front|;
      RunEndShifts(Digits, front, q, i);
      assert (front + q)[|front| + i] == q[i];
      assert i > 0 ==> (front + q)[|front| + i - 1] == q[i - 1];
    }
  }

  lemma IdRunKeptSplits(before: Glyphs, whole: Glyphs, fraction: Glyphs, after: Glyphs)
    requires IsAmount(before, whole, fraction, after) && Kept(IdRun, before, Decimal(whole, fraction), after)
    ensures Sub(IdRun, before + Decimal(whole, fraction) + after) ==
            Sub(IdRun, before) + Decimal(whole, fraction) + Sub(IdRun, after)
  {
    IdRunPrefixAgrees(before, before + Decimal(whole, fraction) + after);
    IdRunSuffixAgrees(before + Decimal(whole, fraction), after);
    KeptSplits(IdRun, before, Decimal(whole, fraction), after);
  }

  /** Around an amount that survives, the text is masked as if the amount were not there. */
  lemma SurvivingAmountSplits(before: Glyphs, whole: Glyphs, fraction: Glyphs, after: Glyphs)
    requires IsAmount(before, whole, fraction, after) && Survives(before, Decimal(whole, fraction), after)
    ensures Mask(before + Decimal(whole, fraction) + after) == Mask(before) + Decimal(whole, fraction) + Mask(after)
  {
    var amount := Decimal(whole, fraction);
    var b1, a1 := Sub(Email, before), Sub(Email, after);
    PatternKeptSplits(Email, before, amount, after);
    PatternKeptSplits(PhoneNumber, b1, amount, a1);
    StaysAnAmount(Email, before, whole, fraction, after);
    StaysAnAmount(PhoneNumber, b1, whole, fraction, a1);
    IdRunKeptSplits(Sub(PhoneNumber, b1), whole, fraction, Sub(PhoneNumber, a1));
  }

  // ---------- texts without an at sign ----------

  ghost predicate NoAt(s: Glyphs) {
    forall k :: 0 <= k < |s| ==> s[k] != At
  }

  lemma NoAtNoEmail(s: Glyphs)
    requires NoAt(s)
    ensures !HasMatch(Email, s) && Sub(Email, s) == s
  {
    forall i: nat, j: nat ensures !IsMatch(Email, s, i, j) {
      assert forall k :: 0 <= k < |s| ==> s[k] != At;
    }
    SubIsIdentity(Email, s);
  }

  lemma NoAtNotTaken(before: Glyphs, whole: Glyphs, fraction: Glyphs, after: Glyphs)
    requires IsAmount(before, whole, fraction, after) && NoAt(before) && NoAt(after)
    ensures !EmailTakes(before, Decimal(whole, fraction), after)
  {
    var amount := Decimal(whole, fraction);
    AmountIsThere(before, whole, fraction, after);
    assert forall k :: |before| <= k < |before + amount| ==> (before + amount)[k] == amount[k - |before|];
    assert forall k :: 0 <= k < |amount| ==> amount[k] == (before + amount)[k + |before|] != At;
    NoAtNoEmail(amount + after);
  }

  /** Without an at sign in the text, the condition is about the runs of glyphs around the amount alone. */
  lemma AmountSurvivesInPlainText(before: Glyphs, whole: Glyphs, fraction: Glyphs, after: Glyphs)
    requires IsAmount(before, whole, fraction, after) && NoAt(before) && NoAt(after)
    ensures Survives(before, Decimal(whole, fraction), after) <==>
            !LongLeft(before + whole) && !LongRight(fraction + after) && |whole| < 4 && |fraction| < 4
  {
    AmountSurvives(before, whole, fraction, after);
    NoAtNotTaken(before, whole, fraction, after);
    NoAtNoEmail(before);
    NoAtNoEmail(after);
  }

  const FIGURES: Glyphs :=
    [Digit('2'), Digit('0'), Space(' '), Digit('3'), Digit('0'), Space(' '), Digit('1'), Digit('0'), Space(' ')]
  const WHOLE: Glyphs := [Digit('4'), Digit('2')]
  const FRACTION: Glyphs := [Digit('5'), Digit('0'), Digit('0')]

  lemma PhoneBeforeADot(t: Glyphs, rest: Glyphs)
    requires |t| >= 8 && AllIn(Phone, t, 0, |t|) && t[0].Digit? && t[|t| - 1].Digit?
    ensures MatchEnd(PhoneNumber, t + [Dot] + rest, 0) == Some(|t|)
  {
    var s, n := t + [Dot] + rest, |t|;
    assert s[n] == Dot && forall k :: 0 <= k < n ==> s[k] == t[k];
    assert IsPhoneAt(s, 0, n);
    assert IsMatch(PhoneNumber, s, 0, n);
    MatchEndIsLongest(PhoneNumber, s, 0);
    PhoneGlyphs(s, 0, MatchEnd(PhoneNumber, s, 0).value);
  }

  lemma FiguresAreAPhoneNumber()
    ensures var t := FIGURES + WHOLE;
            |t| == 11 && AllIn(Phone, t, 0, |t|) && t[0].Digit? && t[|t| - 1].Digit?
  {
  }

  /** In "20 30 10 42.500" both sides of the dot are short, and the whole part is lost to the phone pattern. */
  lemma SwallowedAmountExample()
    ensures IsAmount(FIGURES, WHOLE, FRACTION, []) && |WHOLE| < 4 && |FRACTION| < 4
    ensures MatchEnd(PhoneNumber, FIGURES + Decimal(WHOLE, FRACTION), 0) == Some(11)
    ensures !Survives(FIGURES, Decimal(WHOLE, FRACTION), [])
  {
    var t := FIGURES + WHOLE;
    FiguresAreAPhoneNumber();
    assert FIGURES + Decimal(WHOLE, FRACTION) == t + [Dot] + FRACTION;
    PhoneBeforeADot(t, FRACTION);
    assert LongLeft(t);
    AmountSurvivesInPlainText(FIGURES, WHOLE, FRACTION, []);
  }
}
