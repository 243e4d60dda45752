/** What masking puts in the place of an e-mail, a phone number or an identifier in a text, and which numbers
    the outbound guard refuses. */
module Placeholders {
  import opened Domain
  import opened Masker
  import opened Amounts

  function Letters(word: string): (r: Glyphs)
    ensures |r| == |word| && forall i :: 0 <= i < |r| ==> r[i] == Letter(word[i])
  {
    seq(|word|, i requires 0 <= i < |word| => Letter(word[i]))
  }

  function Bracketing(word: string): Glyphs {
    [Mark('[')] + Letters(word) + [Mark(']')]
  }

  /** No match of the pattern holds the glyph. */
  predicate Stops(p: Pattern, g: Glyph)
    requires Substituted(p)
  {
    match p
    case Email => g.Space? || g.Mark?
    case PhoneNumber => g.Letter? || g.Dot? || g.At? || g.Mark?
    case IdRun => !g.Digit?
  }

  /** The part in the middle is set off from its surroundings. */
  predicate SetOff(p: Pattern, before: Glyphs, after: Glyphs)
    requires Substituted(p)
  {
    (before == [] || Stops(p, before[|before| - 1])) && (after == [] || Stops(p, after[0]))
  }

  lemma StopIsOutside(p: Pattern, s: Glyphs, i: nat, j: nat, k: nat)
    requires Substituted(p) && IsMatch(p, s, i, j) && i <= k < j
    ensures !Stops(p, s[k])
  {
    match p
    case Email =>
      var a: nat, b: nat :| IsEmailAt(s, i, a, b, j);
      assert k < a ==> In(Local, s[k]);
      assert a < k < b ==> In(Host, s[k]);
      assert b < k ==> In(Tail, s[k]);
    case PhoneNumber => PhoneGlyphs(s, i, j);
    case IdRun => assert In(Digits, s[k]);
  }

  /** What must be absent on both sides. */
  function Shape(p: Pattern): Pattern
    requires Substituted(p)
  {
    if p.IdRun? then FourDigits else p
  }

  lemma MatchHasShape(p: Pattern, s: Glyphs, i: nat, j: nat)
    requires Substituted(p) && IsMatch(p, s, i, j)
    ensures var e := if p.IdRun? then i + 4 else j; i <= e <= j && IsMatch(Shape(p), s, i, e)
  {
  }

  lemma NoneBefore(p: Pattern, before: Glyphs, rest: Glyphs, k: nat)
    requires Substituted(p) && k < |before| && Stops(p, before[|before| - 1]) && !HasMatch(Shape(p), before)
    ensures MatchEnd(p, before + rest, k).None?
  {
    var s := before + rest;
    if MatchEnd(p, s, k).Some? {
      var e := MatchEnd(p, s, k).value;
      FoundIsMatch(p, s, k);
      if e >= |before| {
        StopIsOutside(p, s, k, e, |before| - 1);
      } else {
        MatchHasShape(p, s, k, e);
        MatchesStay(Shape(p), before, s, k, if p.IdRun? then k + 4 else e);
      }
    }
  }

  lemma NoneAfter(p: Pattern, front: Glyphs, after: Glyphs, k: nat)
    requires Substituted(p) && k < |after| && !HasMatch(Shape(p), after)
    ensures MatchEnd(p, front + after, |front| + k).None?
  {
    var s, n := front + after, |front|;
    if MatchEnd(p, s, n + k).Some? {
      var e := MatchEnd(p, s, n + k).value;
      FoundIsMatch(p, s, n + k);
      MatchHasShape(p, s, n + k, e);
      MatchesShift(Shape(p), front, after, k, if p.IdRun? then k + 4 else e - n);
    }
  }

  lemma FoundWhole(p: Pattern, front: Glyphs, after: Glyphs, lo: nat)
    requires Substituted(p) && IsMatch(p, front + after, lo, |front|) && lo < |front|
    requires after == [] || Stops(p, after[0])
    ensures MatchEnd(p, front + after, lo) == Some(|front|)
  {
    var s := front + after;
    MatchIsFound(p, s, lo, |front|);
    FoundIsMatch(p, s, lo);
    var e := MatchEnd(p, s, lo).value;
    if e > |front| {
      StopIsOutside(p, s, lo, e, |front|);
    }
  }

  lemma OneReplaced(ends: seq<Option<nat>>, ph: Glyphs, s: Glyphs, lo: nat, hi: nat)
    requires IsTable(ends, s) && lo < hi <= |s| && ends[lo] == Some(hi)
    requires forall k :: 0 <= k < lo ==> ends[k].None?
    requires forall k :: hi <= k < |s| ==> ends[k].None?
    ensures Replace(ends, ph, s, 0) == s[..lo] + ph + s[hi..]
  {
    UnmatchedIsCopied(ends, ph, s, 0, lo);
    ScanStep(ends, ph, s, lo);
    UnmatchedIsCopied(ends, ph, s, hi, |s|);
    assert Replace(ends, ph, s, |s|) == [];
    assert Replace(ends, ph, s, hi) == s[hi..];
    Associates(s[..lo], ph, s[hi..]);
  }

  lemma OneMatch(p: Pattern, s: Glyphs, lo: nat, hi: nat)
    requires Substituted(p) && lo < hi <= |s| && MatchEnd(p, s, lo) == Some(hi)
    requires forall k: nat :: k < lo ==> MatchEnd(p, s, k).None?
    requires forall k: nat :: hi <= k < |s| ==> MatchEnd(p, s, k).None?
    ensures Sub(p, s) == s[..lo] + Placeholder(p) + s[hi..]
  {
    forall k | 0 <= k < |s| && (k <= lo || hi <= k) ensures Ends(p, s)[k] == MatchEnd(p, s, k) {
      EndAt(p, s, k);
    }
    OneReplaced(Ends(p, s), Placeholder(p), s, lo, hi);
  }

  lemma NoneAround(p: Pattern, before: Glyphs, mid: Glyphs, after: Glyphs)
    requires Substituted(p) && SetOff(p, before, after)
    requires !HasMatch(Shape(p), before) && !HasMatch(Shape(p), after)
    ensures var s := before + mid + after;
            forall k: nat :: k < |before| || |before + mid| <= k < |s| ==> k <= |s| && MatchEnd(p, s, k).None?
  {
    var s, front := before + mid + after, before + mid;
    assert s == before + (mid + after);
    forall k: nat | k < |before| || |front| <= k < |s| ensures k <= |s| && MatchEnd(p, s, k).None? {
      if k < |before| {
        NoneBefore(p, before, mid + after, k);
      } else {
        NoneAfter(p, front, after, k - |front|);
        assert |front| + (k - |front|) == k;
      }
    }
  }

  /** One match that is set off, with nothing of its kind on either side, is replaced by its placeholder and
      the sides are copied. */
  lemma OneIsReplaced(p: Pattern, before: Glyphs, mid: Glyphs, after: Glyphs)
    requires Substituted(p) && mid != [] && IsMatch(p, before + mid + after, |before|, |before + mid|)
    requires SetOff(p, before, after) && !HasMatch(Shape(p), before) && !HasMatch(Shape(p), after)
    ensures Sub(p, before + mid + after) == before + Placeholder(p) + after
  {
    var s := before + mid + after;
    NoneAround(p, before, mid, after);
    FoundWhole(p, before + mid, after, |before|);
    OneMatch(p, s, |before|, |before + mid|);
    SidesOf(before, mid, after);
  }

  lemma SidesOf(before: Glyphs, mid: Glyphs, after: Glyphs)
    ensures (before + mid + after)[..|before|] == before && (before + mid + after)[|before + mid|..] == after
  {
  }

  /** No match forms across a placeholder. */
  lemma NoneAcross(q: Pattern, before: Glyphs, ph: Glyphs, after: Glyphs)
    requires SelfContained(q) && Bracketed(ph) && !HasMatch(q, before) && !HasMatch(q, after)
    ensures !HasMatch(q, before + ph + after)
  {
    var s, front := before + ph + after, before + ph;
    forall i: nat, j: nat | IsMatch(q, s, i, j) ensures false {
      MatchIsAnchored(q, s, i, j);
      assert Bracket(s[|before|]) && Bracket(s[|front| - 1]);
      assert forall k :: |before| <= k < |front| ==> s[k] == ph[k - |before|];
      if j <= |before| {
        MatchesStay(q, before, s, i, j);
      } else {
        assert i >= |front|;
        MatchesShift(q, front, after, i - |front|, j - |front|);
      }
    }
  }

  lemma CleanAcross(p: Pattern, before: Glyphs, after: Glyphs)
    requires Substituted(p) && Clean(before) && Clean(after)
    ensures Clean(before + Placeholder(p) + after)
  {
    PlaceholdersAreBracketed(p);
    NoneAcross(Email, before, Placeholder(p), after);
    NoneAcross(PhoneNumber, before, Placeholder(p), after);
    NoneAcross(FourDigits, before, Placeholder(p), after);
  }

  lemma CleanIsLeft(s: Glyphs)
    requires Clean(s)
    ensures Sub(Email, s) == s && Sub(PhoneNumber, s) == s && Sub(IdRun, s) == s
  {
    SubIsIdentity(Email, s);
    SubIsIdentity(PhoneNumber, s);
    SubIsIdentity(IdRun, s);
  }

  lemma PlaceholdersAre()
    ensures Placeholder(Email) == Bracketing("EMAIL") && Placeholder(PhoneNumber) == Bracketing("PHONE")
    ensures Placeholder(IdRun) == Bracketing("ID")
  {
  }

  lemma EmailGoes(before: Glyphs, mid: Glyphs, after: Glyphs)
    requires mid != [] && IsMatch(Email, before + mid + after, |before|, |before + mid|)
    requires Clean(before) && Clean(after) && SetOff(Email, before, after)
    ensures Mask(before + mid + after) == before + Placeholder(Email) + after
  {
    OneIsReplaced(Email, before, mid, after);
    CleanAcross(Email, before, after);
    CleanIsLeft(before + Placeholder(Email) + after);
  }

  lemma PhoneGoes(before: Glyphs, mid: Glyphs, after: Glyphs)
    requires mid != [] && IsMatch(PhoneNumber, before + mid + after, |before|, |before + mid|)
    requires Clean(before) && Clean(after) && SetOff(PhoneNumber, before, after)
    requires !HasMatch(Email, before + mid + after)
    ensures Mask(before + mid + after) == before + Placeholder(PhoneNumber) + after
  {
    SubIsIdentity(Email, before + mid + after);
    OneIsReplaced(PhoneNumber, before, mid, after);
    CleanAcross(PhoneNumber, before, after);
    CleanIsLeft(before + Placeholder(PhoneNumber) + after);
  }

  // ---------- e-mails ----------

  predicate IsLocalPart(s: Glyphs) {
    s != [] && forall k :: 0 <= k < |s| ==> s[k].Letter? || s[k].Digit? || s[k] == Dot || s[k] == Plus || s[k] == Dash
  }

  predicate IsHostPart(s: Glyphs) {
    s != [] && forall k :: 0 <= k < |s| ==> s[k].Letter? || s[k].Digit? || s[k] == Dash
  }

  predicate IsTailPart(s: Glyphs) {
    s != [] && forall k :: 0 <= k < |s| ==> s[k].Letter? || s[k].Digit? || s[k] == Dot || s[k] == Dash
  }

  function Address(local: Glyphs, host: Glyphs, tail: Glyphs): Glyphs {
    local + [At] + host + [Dot] + tail
  }

  lemma AddressIsMatched(before: Glyphs, local: Glyphs, host: Glyphs, tail: Glyphs, after: Glyphs)
    requires IsLocalPart(local) && IsHostPart(host) && IsTailPart(tail)
    ensures var mid := Address(local, host, tail);
            IsMatch(Email, before + mid + after, |before|, |before + mid|)
  {
    var mid, n := Address(local, host, tail), |before|;
    var s, a := before + mid + after, n + |local|;
    var b := a + 1 + |host|;
    forall k | n <= k < a ensures In(Local, s[k]) {
      assert s[k] == local[k - n];
    }
    forall k | a + 1 <= k < b ensures In(Host, s[k]) {
      assert s[k] == host[k - a - 1];
    }
    forall k | b + 1 <= k < |before + mid| ensures In(Tail, s[k]) {
      assert s[k] == tail[k - b - 1];
    }
    assert IsEmailAt(s, n, a, b, |before + mid|);
  }

  /** An e-mail between clean texts that set it off masks to [EMAIL] between the same texts. */
  lemma EmailIsReplaced(before: Glyphs, local: Glyphs, host: Glyphs, tail: Glyphs, after: Glyphs)
    requires IsLocalPart(local) && IsHostPart(host) && IsTailPart(tail)
    requires Clean(before) && Clean(after) && SetOff(Email, before, after)
    ensures Mask(before + Address(local, host, tail) + after) == before + Bracketing("EMAIL") + after
  {
    AddressIsMatched(before, local, host, tail, after);
    EmailGoes(before, Address(local, host, tail), after);
    PlaceholdersAre();
  }

  // ---------- phone numbers ----------

  /** Digits at both ends and at least six digits, spaces or dashes between them. */
  predicate IsNumber(s: Glyphs) {
    && |s| >= 8 && s[0].Digit? && s[|s| - 1].Digit?
    && forall k :: 0 <= k < |s| ==> s[k].Digit? || s[k].Space? || s[k] == Dash
  }

  lemma NumberIsMatched(before: Glyphs, plus: bool, number: Glyphs, after: Glyphs)
    requires IsNumber(number)
    ensures var mid := (if plus then [Plus] else []) + number;
            IsMatch(PhoneNumber, before + mid + after, |before|, |before + mid|)
  {
    var sign := if plus then [Plus] else [];
    var mid := sign + number;
    var s, d := before + mid + after, |before| + |sign|;
    forall k | d <= k < |before + mid| ensures In(Phone, s[k]) {
      assert s[k] == number[k - d];
    }
    assert s[d] == number[0] && s[|before + mid| - 1] == number[|number| - 1];
    assert plus ==> s[|before|] == Plus;
    assert IsPhoneAt(s, |before|, |before + mid|);
  }

  /** A phone number between clean texts that set it off, in a text without an e-mail, masks to [PHONE]. */
  lemma PhoneIsReplaced(before: Glyphs, plus: bool, number: Glyphs, after: Glyphs)
    requires IsNumber(number) && Clean(before) && Clean(after) && SetOff(PhoneNumber, before, after)
    requires !HasMatch(Email, before + ((if plus then [Plus] else []) + number) + after)
    ensures Mask(before + ((if plus then [Plus] else []) + number) + after) == before + Bracketing("PHONE") + after
  {
    NumberIsMatched(before, plus, number, after);
    PhoneGoes(before, (if plus then [Plus] else []) + number, after);
    PlaceholdersAre();
  }

  // ---------- identifiers ----------

  /** A run of four digits or more between clean texts, in a text without an e-mail or a phone number, masks
      to [ID]. */
  lemma IdentifierIsReplaced(before: Glyphs, digits: Glyphs, after: Glyphs)
    requires |digits| >= 4 && AllIn(Digits, digits, 0, |digits|) && Clean(before) && Clean(after)
    requires !EndsInDigit(before) && !StartsWithDigit(after)
    requires !HasMatch(Email, before + digits + after) && !HasMatch(PhoneNumber, before + digits + after)
    ensures Mask(before + digits + after) == before + Bracketing("ID") + after
  {
    var s, n := before + digits + after, |before|;
    forall k | n <= k < n + |digits| ensures In(Digits, s[k]) {
      assert s[k] == digits[k - n] && In(Digits, digits[k - n]);
    }
    assert IsMatch(IdRun, s, n, |before + digits|);
    SubIsIdentity(Email, s);
    SubIsIdentity(PhoneNumber, s);
    OneIsReplaced(IdRun, before, digits, after);
    PlaceholdersAre();
  }

  // ---------- the outbound guard ----------

  /** Of the numbers alone the guard refuses exactly those of eight to twelve digits. */
  lemma NumbersThatAreRefused(digits: Glyphs)
    requires AllIn(Digits, digits, 0, |digits|)
    ensures CheckOutbound(digits) == Refused <==> 8 <= |digits| <= 12
  {
    var n := |digits|;
    if 8 <= n <= 12 {
      assert IsMatch(Unmasked, digits, 0, n);
    }
    forall k | 0 <= k < n ensures IsWord(digits[k]) {
      assert In(Digits, digits[k]);
    }
    assert forall i: nat, j: nat :: IsMatch(Unmasked, digits, i, j) ==> i == 0 && j == n;
  }
}
