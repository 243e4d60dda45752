/** The PII masker: three ordered leftmost substitutions over a text, and the outbound guard that
    reads its output. A glyph is a character together with the regex class it belongs to. */
module Masker {
  import opened Domain

  /** `Letter` is every word character but a digit (the underscore too); `Mark` is a character in
      none of the classes of the patterns, such as a bracket. */
  datatype Glyph =
    | Digit(c: char)
    | Letter(c: char)
    | Space(c: char)
    | Dot
    | Plus
    | Dash
    | At
    | Mark(c: char)

  type Glyphs = seq<Glyph>

  const OPEN := Mark('[')
  const CLOSE := Mark(']')

  predicate IsWord(g: Glyph) { g.Digit? || g.Letter? }
  predicate InLocal(g: Glyph) { IsWord(g) || g.Dot? || g.Plus? || g.Dash? }
  predicate InHost(g: Glyph) { IsWord(g) || g.Dash? }
  predicate InTail(g: Glyph) { IsWord(g) || g.Dot? || g.Dash? }
  predicate InPhone(g: Glyph) { g.Digit? || g.Space? || g.Dash? }

  datatype Class = Local | Host | Tail | Phone | Digits

  predicate In(c: Class, g: Glyph) {
    match c
    case Local => InLocal(g)
    case Host => InHost(g)
    case Tail => InTail(g)
    case Phone => InPhone(g)
    case Digits => g.Digit?
  }

  ghost predicate AllIn(c: Class, s: Glyphs, lo: nat, hi: nat)
    requires hi <= |s|
  {
    forall k :: lo <= k < hi ==> In(c, s[k])
  }

  /** Where a greedy repetition of class `c` started at `i` stops. */
  function RunEnd(c: Class, s: Glyphs, i: nat): (e: nat)
    requires i <= |s|
    ensures i <= e <= |s| && AllIn(c, s, i, e)
    ensures e < |s| ==> !In(c, s[e])
    decreases |s| - i
  {
    if i < |s| && In(c, s[i]) then RunEnd(c, s, i + 1) else i
  }

  // ---------- the languages of the patterns ----------

  /** The three masking patterns and the two shapes that must not survive them. */
  datatype Pattern = Email | PhoneNumber | IdRun | FourDigits | Unmasked

  /** `\w.+-` one or more, `@`, `\w-` one or more, a dot, `\w.-` one or more. */
  ghost predicate IsEmailAt(s: Glyphs, i: nat, a: nat, b: nat, j: nat) {
    && i < a && a + 1 < b && b + 1 < j <= |s|
    && AllIn(Local, s, i, a) && s[a] == At
    && AllIn(Host, s, a + 1, b) && s[b] == Dot
    && AllIn(Tail, s, b + 1, j)
  }

  /** The first digit of a phone number started at `i`: an optional plus sign comes before it. */
  function PhoneStart(s: Glyphs, i: nat): nat
    requires i < |s|
  {
    if s[i].Plus? then i + 1 else i
  }

  /** An optional plus, a digit, six or more digits, spaces or dashes, a digit. */
  ghost predicate IsPhoneAt(s: Glyphs, i: nat, j: nat) {
    && i < j <= |s|
    && var d := PhoneStart(s, i);
       d + 8 <= j && s[d].Digit? && s[j - 1].Digit? && AllIn(Phone, s, d + 1, j - 1)
  }

  ghost predicate IsMatch(p: Pattern, s: Glyphs, i: nat, j: nat) {
    && i <= j <= |s|
    && match p
       case Email => exists a: nat, b: nat :: IsEmailAt(s, i, a, b, j)
       case PhoneNumber => IsPhoneAt(s, i, j)
       case IdRun =>
         i + 4 <= j && AllIn(Digits, s, i, j) && (i > 0 ==> !s[i - 1].Digit?) && (j < |s| ==> !s[j].Digit?)
       case FourDigits => j == i + 4 && AllIn(Digits, s, i, j)
       case Unmasked =>
         i + 8 <= j <= i + 12 && AllIn(Digits, s, i, j) && (i > 0 ==> !IsWord(s[i - 1])) && (j < |s| ==> !IsWord(s[j]))
  }

  ghost predicate HasMatch(p: Pattern, s: Glyphs) {
    exists i: nat, j: nat :: IsMatch(p, s, i, j)
  }

  // ---------- the scanners ----------

  /** Where a match of `p` started at `i` ends under greedy matching, if there is one. */
  function MatchEnd(p: Pattern, s: Glyphs, i: nat): (r: Option<nat>)
    requires i <= |s| && (p.Email? || p.PhoneNumber? || p.IdRun?)
    ensures r.Some? ==> i < r.value <= |s|
  {
    match p
    case Email => EmailEnd(s, i)
    case PhoneNumber => PhoneEnd(s, i)
    case IdRun =>
      var e := RunEnd(Digits, s, i);
      if (i == 0 || !s[i - 1].Digit?) && e - i >= 4 then Some(e) else None
  }

  function EmailEnd(s: Glyphs, i: nat): (r: Option<nat>)
    requires i <= |s|
    ensures r.Some? ==> i < r.value <= |s|
  {
    var a := RunEnd(Local, s, i);
    if a == i || a == |s| || !s[a].At? then None else
    var b := RunEnd(Host, s, a + 1);
    if b == a + 1 || b == |s| || !s[b].Dot? then None else
    var j := RunEnd(Tail, s, b + 1);
    if j == b + 1 then None else Some(j)
  }

  function PhoneEnd(s: Glyphs, i: nat): (r: Option<nat>)
    requires i <= |s|
    ensures r.Some? ==> i < r.value <= |s|
  {
    if i == |s| then None else
    var d := PhoneStart(s, i);
    if d == |s| || !s[d].Digit? then None else
    BackToDigit(s, d + 8, RunEnd(Phone, s, d + 1))
  }

  /** Backtracking of the greedy body: the longest end in `lo..hi` that follows a digit. */
  function BackToDigit(s: Glyphs, lo: nat, hi: nat): (r: Option<nat>)
    requires hi <= |s| && lo > 0
    ensures r.Some? ==> lo <= r.value <= hi && s[r.value - 1].Digit?
    ensures forall k :: (if r.Some? then r.value else lo - 1) <= k < hi ==> !s[k].Digit?
    decreases hi
  {
    if hi < lo then None else if s[hi - 1].Digit? then Some(hi) else BackToDigit(s, lo, hi - 1)
  }

  /** Greedy matching finds a match exactly when there is one, and then the longest. */
  lemma MatchEndIsLongest(p: Pattern, s: Glyphs, i: nat)
    requires i <= |s| && (p.Email? || p.PhoneNumber? || p.IdRun?)
    ensures MatchEnd(p, s, i).Some? ==> IsMatch(p, s, i, MatchEnd(p, s, i).value)
    ensures forall j: nat :: IsMatch(p, s, i, j) ==> MatchEnd(p, s, i).Some? && j <= MatchEnd(p, s, i).value
  {
    match p
    case Email =>
      if EmailEnd(s, i).Some? {
        var a := RunEnd(Local, s, i);
        var b := RunEnd(Host, s, a + 1);
        assert IsEmailAt(s, i, a, b, EmailEnd(s, i).value);
      }
      forall a: nat, b: nat, j: nat | IsEmailAt(s, i, a, b, j)
        ensures EmailEnd(s, i).Some? && j <= EmailEnd(s, i).value
      {
        RunEndIs(Local, s, i, a);
        RunEndIs(Host, s, a + 1, b);
      }
    case PhoneNumber =>
    case IdRun =>
  }

  lemma RunEndIs(c: Class, s: Glyphs, i: nat, e: nat)
    requires i <= e < |s| && AllIn(c, s, i, e) && !In(c, s[e])
    ensures RunEnd(c, s, i) == e
  {
  }

  // ---------- substitution ----------

  function Placeholder(p: Pattern): Glyphs {
    match p
    case Email => [OPEN, Letter('E'), Letter('M'), Letter('A'), Letter('I'), Letter('L'), CLOSE]
    case PhoneNumber => [OPEN, Letter('P'), Letter('H'), Letter('O'), Letter('N'), Letter('E'), CLOSE]
    case _ => [OPEN, Letter('I'), Letter('D'), CLOSE]
  }

  /** Where a match started at each position ends. */
  predicate IsTable(ends: seq<Option<nat>>, s: Glyphs) {
    |ends| == |s| && forall i :: 0 <= i < |s| && ends[i].Some? ==> i < ends[i].value <= |s|
  }

  function Next(ends: seq<Option<nat>>, s: Glyphs, i: nat): (n: nat)
    requires IsTable(ends, s) && i < |s|
    ensures i < n <= |s|
  {
    ends[i].GetOr(i + 1)
  }

  /** Leftmost substitution in the rest of `s` from `i`. */
  function Replace(ends: seq<Option<nat>>, placeholder: Glyphs, s: Glyphs, i: nat): Glyphs
    requires IsTable(ends, s) && i <= |s|
    decreases |s| - i
  {
    if i == |s| then []
    else (if ends[i].Some? then placeholder else [s[i]]) + Replace(ends, placeholder, s, Next(ends, s, i))
  }

  /** The matches are those of the whole text, so a look-behind sees what comes before a position. */
  function Ends(p: Pattern, s: Glyphs): (ends: seq<Option<nat>>)
    requires p.Email? || p.PhoneNumber? || p.IdRun?
    ensures IsTable(ends, s) && forall i :: 0 <= i < |s| ==> ends[i] == MatchEnd(p, s, i)
  {
    seq(|s|, i requires 0 <= i < |s| => MatchEnd(p, s, i))
  }

  function Sub(p: Pattern, s: Glyphs): Glyphs
    requires p.Email? || p.PhoneNumber? || p.IdRun?
  {
    Replace(Ends(p, s), Placeholder(p), s, 0)
  }

  function Mask(s: Glyphs): Glyphs {
    Sub(IdRun, Sub(PhoneNumber, Sub(Email, s)))
  }

  // ---------- nothing matchable survives ----------

  /** The scan from `i` copies position `x` instead of replacing it. */
  ghost predicate Copied(ends: seq<Option<nat>>, s: Glyphs, i: nat, x: nat)
    requires IsTable(ends, s) && i <= |s|
    decreases |s| - i
  {
    i < |s| && ((ends[i].None? && x == i) || Copied(ends, s, Next(ends, s, i), x))
  }

  predicate Bracket(g: Glyph) { g == OPEN || g == CLOSE }

  /** Every match holds a glyph that no placeholder holds. */
  predicate Anchor(g: Glyph) { g.Digit? || g.At? }

  ghost predicate Bracketed(placeholder: Glyphs) {
    && |placeholder| > 0 && Bracket(placeholder[0]) && Bracket(placeholder[|placeholder| - 1])
    && forall x :: 0 <= x < |placeholder| ==> !Anchor(placeholder[x])
  }

  ghost predicate CopiedFrom(ends: seq<Option<nat>>, s: Glyphs, i: nat, k: nat, text: Glyphs)
    requires IsTable(ends, s) && i <= |s|
  {
    && k + |text| <= |s| && text == s[k..k + |text|]
    && forall x: nat :: k <= x < k + |text| ==> Copied(ends, s, i, x)
  }

  lemma {:induction false} CopiedIsUnmatched(ends: seq<Option<nat>>, s: Glyphs, i: nat, x: nat)
    requires IsTable(ends, s) && i <= |s| && Copied(ends, s, i, x)
    ensures i <= x < |s| && ends[x].None?
    decreases |s| - i
  {
    if !(ends[i].None? && x == i) {
      CopiedIsUnmatched(ends, s, Next(ends, s, i), x);
    }
  }

  lemma CopiedCons(ends: seq<Option<nat>>, s: Glyphs, i: nat, text: Glyphs)
    requires IsTable(ends, s) && i < |s| && ends[i].None? && CopiedFrom(ends, s, i + 1, i + 1, text)
    ensures CopiedFrom(ends, s, i, i, [s[i]] + text)
  {
    assert [s[i]] + text == s[i..i + 1 + |text|];
    forall x: nat | i <= x < i + 1 + |text| ensures Copied(ends, s, i, x) {
      assert x > i ==> Copied(ends, s, i + 1, x);
    }
  }

  predicate BracketFree(s: Glyphs) {
    forall x :: 0 <= x < |s| ==> !Bracket(s[x])
  }

  /** Output before the first bracket is a copy of the input. */
  lemma {:induction false} BracketFreePrefixIsCopied(ends: seq<Option<nat>>, ph: Glyphs, s: Glyphs, i: nat, b: nat)
    requires IsTable(ends, s) && i <= |s| && Bracketed(ph)
    requires b <= |Replace(ends, ph, s, i)| && BracketFree(Replace(ends, ph, s, i)[..b])
    ensures CopiedFrom(ends, s, i, i, Replace(ends, ph, s, i)[..b])
    decreases |s| - i
  {
    if b > 0 {
      var out := Replace(ends, ph, s, i);
      var front := if ends[i].Some? then ph else [s[i]];
      var rest := Replace(ends, ph, s, Next(ends, s, i));
      assert out[..b][0] == front[0];
      assert out[..b] == [s[i]] + rest[..b - 1];
      assert rest[..b - 1] == out[..b][1..];
      BracketFreePrefixIsCopied(ends, ph, s, i + 1, b - 1);
      CopiedCons(ends, s, i, rest[..b - 1]);
    }
  }

  ghost predicate Anchored(s: Glyphs, a: nat, b: nat)
    requires b <= |s|
  {
    && (forall x :: a <= x < b ==> !Bracket(s[x]))
    && exists x :: a <= x < b && Anchor(s[x])
  }

  lemma DropPrefix(front: Glyphs, rest: Glyphs, a: nat, b: nat)
    requires |front| <= a < b <= |front + rest| && Anchored(front + rest, a, b)
    ensures Anchored(rest, a - |front|, b - |front|)
    ensures (front + rest)[a..b] == rest[a - |front|..b - |front|]
  {
    var n := |front|;
    var x :| a <= x < b && Anchor((front + rest)[x]);
    assert Anchor(rest[x - n]);
    forall y | a - n <= y < b - n ensures !Bracket(rest[y]) {
      assert !Bracket((front + rest)[y + n]);
    }
  }

  lemma PlaceholderIsSkipped(ph: Glyphs, rest: Glyphs, a: nat, b: nat)
    requires Bracketed(ph) && a < b <= |ph + rest| && Anchored(ph + rest, a, b)
    ensures |ph| <= a
  {
    var out := ph + rest;
    assert Bracket(out[|ph| - 1]) && forall x :: 0 <= x < |ph| ==> !Anchor(out[x]);
  }

  /** A stretch of output with an anchor and no bracket was copied from the input in one piece:
      no placeholder lets a match form across its brackets. */
  lemma {:induction false} AnchoredOutputIsCopied(ends: seq<Option<nat>>, ph: Glyphs, s: Glyphs, i: nat, a: nat, b: nat)
    returns (k: nat)
    requires IsTable(ends, s) && i <= |s| && Bracketed(ph)
    requires a < b <= |Replace(ends, ph, s, i)| && Anchored(Replace(ends, ph, s, i), a, b)
    ensures CopiedFrom(ends, s, i, k, Replace(ends, ph, s, i)[a..b])
    decreases |s| - i
  {
    var front := if ends[i].Some? then ph else [s[i]];
    var rest := Replace(ends, ph, s, Next(ends, s, i));
    if ends[i].Some? {
      PlaceholderIsSkipped(ph, rest, a, b);
    }
    if a == 0 {
      BracketFreePrefixIsCopied(ends, ph, s, i, b);
      k := i;
    } else {
      DropPrefix(front, rest, a, b);
      k := AnchoredOutputIsCopied(ends, ph, s, Next(ends, s, i), a - |front|, b - |front|);
    }
  }

  /** The shapes whose matches look at nothing outside themselves. */
  predicate SelfContained(q: Pattern) { q.Email? || q.PhoneNumber? || q.FourDigits? }

  lemma MatchIsAnchored(q: Pattern, s: Glyphs, i: nat, j: nat)
    requires SelfContained(q) && IsMatch(q, s, i, j)
    ensures i < j && Anchored(s, i, j)
  {
    match q
    case Email =>
      var a: nat, b: nat :| IsEmailAt(s, i, a, b, j);
      assert Anchor(s[a]);
    case PhoneNumber => assert Anchor(s[j - 1]);
    case FourDigits => assert Anchor(s[i]);
  }

  lemma MatchMoves(q: Pattern, s: Glyphs, i: nat, j: nat, s': Glyphs, k: nat)
    requires SelfContained(q) && IsMatch(q, s, i, j)
    requires k + (j - i) <= |s'| && s[i..j] == s'[k..k + (j - i)]
    ensures IsMatch(q, s', k, k + (j - i))
  {
    assert forall x :: i <= x < j ==> s[x] == s[i..j][x - i] == s'[k + (x - i)];
    match q
    case Email =>
      var a: nat, b: nat :| IsEmailAt(s, i, a, b, j);
      assert forall x :: k <= x < k + (j - i) ==> s'[x] == s[x - k + i];
      assert IsEmailAt(s', k, a - i + k, b - i + k, k + (j - i));
    case PhoneNumber =>
      assert forall x :: k <= x < k + (j - i) ==> s'[x] == s[x - k + i];
    case FourDigits =>
      assert forall x :: k <= x < k + (j - i) ==> s'[x] == s[x - k + i];
  }

  lemma PlaceholdersAreBracketed(p: Pattern)
    ensures Bracketed(Placeholder(p))
  {
  }

  /** Every match in the output was already in the input, in a copied stretch. */
  lemma OutputMatchWasInInput(p: Pattern, q: Pattern, s: Glyphs, a: nat, b: nat) returns (k: nat)
    requires p.Email? || p.PhoneNumber? || p.IdRun?
    requires SelfContained(q) && IsMatch(q, Sub(p, s), a, b)
    ensures IsMatch(q, s, k, k + (b - a)) && CopiedFrom(Ends(p, s), s, 0, k, Sub(p, s)[a..b])
  {
    PlaceholdersAreBracketed(p);
    MatchIsAnchored(q, Sub(p, s), a, b);
    k := AnchoredOutputIsCopied(Ends(p, s), Placeholder(p), s, 0, a, b);
    MatchMoves(q, Sub(p, s), a, b, s, k);
  }

  /** A later substitution does not create what an earlier one removed. */
  lemma SubKeepsAbsent(p: Pattern, q: Pattern, s: Glyphs)
    requires (p.Email? || p.PhoneNumber? || p.IdRun?) && SelfContained(q) && !HasMatch(q, s)
    ensures !HasMatch(q, Sub(p, s))
  {
    forall a: nat, b: nat | IsMatch(q, Sub(p, s), a, b) ensures HasMatch(q, s) {
      var k := OutputMatchWasInInput(p, q, s, a, b);
    }
  }

  lemma SubRemoves(p: Pattern, s: Glyphs)
    requires p.Email? || p.PhoneNumber?
    ensures !HasMatch(p, Sub(p, s))
  {
    forall a: nat, b: nat ensures !IsMatch(p, Sub(p, s), a, b) {
      if IsMatch(p, Sub(p, s), a, b) {
        var k := OutputMatchWasInInput(p, p, s, a, b);
        MatchIsAnchored(p, Sub(p, s), a, b);
        CopiedIsUnmatched(Ends(p, s), s, 0, k);
        MatchEndIsLongest(p, s, k);
      }
    }
  }

  /** A position that is not copied lies inside a match. */
  lemma {:induction false} ReplacedIsMatched(ends: seq<Option<nat>>, s: Glyphs, i: nat, x: nat) returns (y: nat)
    requires IsTable(ends, s) && i <= x < |s| && !Copied(ends, s, i, x)
    ensures i <= y <= x && ends[y].Some? && x < ends[y].value
    ensures forall z: nat :: y <= z < ends[y].value ==> !Copied(ends, s, i, z)
    decreases |s| - i
  {
    var next := Next(ends, s, i);
    if ends[i].Some? && x < next {
      y := i;
      forall z: nat | Copied(ends, s, next, z) ensures next <= z {
        CopiedIsUnmatched(ends, s, next, z);
      }
    } else {
      y := ReplacedIsMatched(ends, s, next, x);
    }
  }

  function RunStart(s: Glyphs, x: nat): (r: nat)
    requires x <= |s|
    ensures r <= x && AllIn(Digits, s, r, x) && (r > 0 ==> !s[r - 1].Digit?)
  {
    if x > 0 && s[x - 1].Digit? then RunStart(s, x - 1) else x
  }

  lemma LongRunIsMatchedAtItsStart(s: Glyphs, k: nat)
    requires IsMatch(FourDigits, s, k, k + 4)
    ensures MatchEnd(IdRun, s, RunStart(s, k)).Some? && k < MatchEnd(IdRun, s, RunStart(s, k)).value
  {
    var r := RunStart(s, k);
    var e := RunEnd(Digits, s, r);
    assert forall x :: r <= x < k ==> In(Digits, s[x]);
    assert forall x :: k <= x < k + 4 ==> In(Digits, s[x]);
    assert k + 4 <= e;
  }

  /** The first digit of a long run is never copied, so no four digits in a row are. */
  lemma LongRunIsNotCopied(s: Glyphs, k: nat)
    requires IsMatch(FourDigits, s, k, k + 4)
    ensures !Copied(Ends(IdRun, s), s, 0, k)
  {
    var r := RunStart(s, k);
    LongRunIsMatchedAtItsStart(s, k);
    if Copied(Ends(IdRun, s), s, 0, r) {
      CopiedIsUnmatched(Ends(IdRun, s), s, 0, r);
    } else {
      var y := ReplacedIsMatched(Ends(IdRun, s), s, 0, r);
      assert forall z :: y <= z < MatchEnd(IdRun, s, y).value ==> In(Digits, s[z]);
    }
  }

  lemma IdRunRemovesFourDigits(s: Glyphs)
    ensures !HasMatch(FourDigits, Sub(IdRun, s))
  {
    forall a: nat, b: nat ensures !IsMatch(FourDigits, Sub(IdRun, s), a, b) {
      if IsMatch(FourDigits, Sub(IdRun, s), a, b) {
        var k := OutputMatchWasInInput(IdRun, FourDigits, s, a, b);
        assert Copied(Ends(IdRun, s), s, 0, k);
        LongRunIsNotCopied(s, k);
      }
    }
  }

  /** Nothing a pattern looks for: no e-mail, no phone number, no four digits in a row. */
  ghost predicate Clean(s: Glyphs) {
    !HasMatch(Email, s) && !HasMatch(PhoneNumber, s) && !HasMatch(FourDigits, s)
  }

  /** Masking leaves nothing matchable, for every text. */
  lemma MaskedIsClean(s: Glyphs)
    ensures Clean(Mask(s))
  {
    var noEmail := Sub(Email, s);
    var noPhone := Sub(PhoneNumber, noEmail);
    SubRemoves(Email, s);
    SubKeepsAbsent(PhoneNumber, Email, noEmail);
    SubRemoves(PhoneNumber, noEmail);
    SubKeepsAbsent(IdRun, Email, noPhone);
    SubKeepsAbsent(IdRun, PhoneNumber, noPhone);
    IdRunRemovesFourDigits(noPhone);
  }

  lemma {:induction false} ReplacingNothing(ends: seq<Option<nat>>, ph: Glyphs, s: Glyphs, i: nat)
    requires IsTable(ends, s) && i <= |s| && forall x :: 0 <= x < |s| ==> ends[x].None?
    ensures Replace(ends, ph, s, i) == s[i..]
    decreases |s| - i
  {
    if i < |s| {
      ReplacingNothing(ends, ph, s, i + 1);
    }
  }

  lemma SubIsIdentity(p: Pattern, s: Glyphs)
    requires p.Email? || p.PhoneNumber? || p.IdRun?
    requires !HasMatch(if p.IdRun? then FourDigits else p, s)
    ensures Sub(p, s) == s
  {
    forall i: nat | i < |s| ensures MatchEnd(p, s, i).None? {
      MatchEndIsLongest(p, s, i);
      assert !IsMatch(FourDigits, s, i, i + 4) || !p.IdRun?;
    }
    ReplacingNothing(Ends(p, s), Placeholder(p), s, 0);
  }

  /** The texts masking leaves alone are exactly the clean ones. */
  lemma FixedPointsAreClean(s: Glyphs)
    ensures Mask(s) == s <==> Clean(s)
  {
    MaskedIsClean(s);
    if Clean(s) {
      SubIsIdentity(Email, s);
      SubIsIdentity(PhoneNumber, s);
      SubIsIdentity(IdRun, s);
    }
  }

  lemma MaskIsIdempotent(s: Glyphs)
    ensures Mask(Mask(s)) == Mask(s)
  {
    MaskedIsClean(s);
    FixedPointsAreClean(Mask(s));
  }

  lemma ShortDecimalIsClean(whole: Glyphs, fraction: Glyphs)
    requires AllIn(Digits, whole, 0, |whole|) && AllIn(Digits, fraction, 0, |fraction|)
    requires |whole| < 4 && |fraction| < 4
    ensures Clean(whole + [Dot] + fraction)
  {
    var s := whole + [Dot] + fraction;
    forall i: nat, j: nat ensures !IsMatch(Email, s, i, j) {
      assert forall k :: 0 <= k < |s| ==> s[k] != At;
    }
    forall i: nat, j: nat ensures !IsMatch(PhoneNumber, s, i, j) && !IsMatch(FourDigits, s, i, j) {
      assert !In(Digits, s[|whole|]) && !In(Phone, s[|whole|]);
    }
  }

  /** A text that is nothing but a decimal amount is left alone exactly when neither of its digit runs
      reaches four. */
  lemma LoneAmountSurvives(whole: Glyphs, fraction: Glyphs)
    requires AllIn(Digits, whole, 0, |whole|) && AllIn(Digits, fraction, 0, |fraction|)
    ensures Mask(whole + [Dot] + fraction) == whole + [Dot] + fraction <==> |whole| < 4 && |fraction| < 4
  {
    var s := whole + [Dot] + fraction;
    FixedPointsAreClean(s);
    if |whole| >= 4 {
      assert IsMatch(FourDigits, s, 0, 4);
    } else if |fraction| >= 4 {
      assert IsMatch(FourDigits, s, |whole| + 1, |whole| + 5);
    } else {
      ShortDecimalIsClean(whole, fraction);
    }
  }

  /** 1234.5 is not left alone. */
  lemma LongAmountExample()
    ensures Mask([Digit('1'), Digit('2'), Digit('3'), Digit('4'), Dot, Digit('5')]) !=
            [Digit('1'), Digit('2'), Digit('3'), Digit('4'), Dot, Digit('5')]
  {
    var whole, fraction := [Digit('1'), Digit('2'), Digit('3'), Digit('4')], [Digit('5')];
    LoneAmountSurvives(whole, fraction);
    assert whole + [Dot] + fraction == [Digit('1'), Digit('2'), Digit('3'), Digit('4'), Dot, Digit('5')];
  }

  // ---------- the outbound guard ----------

  predicate UnmaskedFrom(s: Glyphs, i: nat)
    requires i <= |s|
  {
    var e := RunEnd(Digits, s, i);
    && i + 8 <= e <= i + 12
    && (i > 0 ==> !IsWord(s[i - 1]))
    && (e < |s| ==> !IsWord(s[e]))
  }

  /** A whole word of eight to twelve digits refuses the response. */
  function CheckOutbound(s: Glyphs): (v: Verdict)
    ensures v.Refused? <==> HasMatch(Unmasked, s)
    ensures v.Refused? || v.Authorized?
  {
    UnmaskedSearch(s);
    if exists i :: 0 <= i <= |s| && UnmaskedFrom(s, i) then Refused else Authorized
  }

  lemma UnmaskedSearch(s: Glyphs)
    ensures HasMatch(Unmasked, s) <==> exists i :: 0 <= i <= |s| && UnmaskedFrom(s, i)
  {
    forall i: nat, j: nat | IsMatch(Unmasked, s, i, j) ensures UnmaskedFrom(s, i) {
      assert RunEnd(Digits, s, i) == j;
    }
    forall i: nat | i <= |s| && UnmaskedFrom(s, i) ensures HasMatch(Unmasked, s) {
      assert IsMatch(Unmasked, s, i, RunEnd(Digits, s, i));
    }
  }

  /** Whatever has no four digits in a row passes the guard; so does every masked text. */
  lemma CleanPassesTheGuard(s: Glyphs)
    requires !HasMatch(FourDigits, s)
    ensures CheckOutbound(s) == Authorized
  {
    forall i: nat, j: nat | IsMatch(Unmasked, s, i, j) ensures IsMatch(FourDigits, s, i, i + 4) {
    }
  }

  lemma MaskedPassesTheGuard(s: Glyphs)
    ensures CheckOutbound(Mask(s)) == Authorized
  {
    MaskedIsClean(s);
    CleanPassesTheGuard(Mask(s));
  }
}
