/**
 What a full match of a regular expression is, for expressions that are sequences of counted character classes and
 literal texts, and that the text predicates of the model are the full matches of the expressions they stand for.
 */
module Regex {
  import opened Patterns
  import Contract
  import EngineEvidence
  import OciArtifact

  /** One class of characters, between `min` and `max` times, or a text as it is. */
  datatype Piece = Chars(allowed: char -> bool, min: nat, max: nat) | Literal(text: string)

  /** The text can be cut into parts, one for each piece in order, each of which its piece allows. */
  ghost predicate FullMatch(pieces: seq<Piece>, s: string)
    decreases |pieces|
  {
    if pieces == [] then s == ""
    else exists n | 0 <= n <= |s| :: Takes(pieces[0], s[..n]) && FullMatch(pieces[1..], s[n..])
  }

  predicate Takes(p: Piece, s: string) {
    match p
    case Chars(allowed, min, max) => min <= |s| <= max && forall i | 0 <= i < |s| :: allowed(s[i])
    case Literal(text) => s == text
  }

  // ---- Pieces of one length ----

  /** A last piece takes all there is. */
  lemma LastPiece(p: Piece, s: string)
    ensures FullMatch([p], s) <==> Takes(p, s)
  {
    assert [p][1..] == [];
    assert s[..|s|] == s && s[|s|..] == "";
    if FullMatch([p], s) {
      var n :| 0 <= n <= |s| && Takes(p, s[..n]) && FullMatch([p][1..], s[n..]);
      assert n == |s|;
    } else if Takes(p, s) {
      assert Takes(p, s[..|s|]) && FullMatch([p][1..], s[|s|..]);
    }
  }

  predicate Fixed(p: Piece, n: nat) {
    match p
    case Chars(_, min, max) => min == max == n
    case Literal(text) => |text| == n
  }

  /** A piece of one length takes that much from the front. */
  lemma FixedFirst(p: Piece, n: nat, rest: seq<Piece>, s: string)
    requires Fixed(p, n)
    ensures FullMatch([p] + rest, s) <==> n <= |s| && Takes(p, s[..n]) && FullMatch(rest, s[n..])
  {
    var all := [p] + rest;
    assert all[0] == p && all[1..] == rest;
    if FullMatch(all, s) {
      var k :| 0 <= k <= |s| && Takes(all[0], s[..k]) && FullMatch(all[1..], s[k..]);
      assert |s[..k]| == k == n;
    }
  }

  /** What is cut off the front and off the end of a text does not depend on which is cut off first. */
  lemma CutBoth(s: string, k: nat, n: nat)
    requires k + n <= |s|
    ensures s[k..][..|s| - k - n] == s[..|s| - n][k..] && s[k..][|s| - k - n..] == s[|s| - n..]
    ensures s[..|s| - n][..k] == s[..k]
  {
  }

  ghost predicate Cuts(front: seq<Piece>, q: Piece, n: nat, s: string)
    requires n <= |s|
  {
    FullMatch(front, s[..|s| - n]) && Takes(q, s[|s| - n..])
  }

  /** A last piece of one length takes that much from the end, whatever comes before it. */
  lemma {:induction false} FixedEnd(front: seq<Piece>, q: Piece, n: nat, s: string)
    requires Fixed(q, n)
    ensures FullMatch(front + [q], s) <==> n <= |s| && Cuts(front, q, n, s)
    decreases |front|
  {
    hide Takes;
    var all := front + [q];
    if front == [] {
      assert all == [q];
      LastPiece(q, s);
      TakesFixed(q, n, s);
      if n == |s| { assert s[|s| - n..] == s; }
    } else {
      assert all[0] == front[0] && all[1..] == front[1..] + [q];
      if n <= |s| && Cuts(front, q, n, s) {
        var t := s[..|s| - n];
        var k :| 0 <= k <= |t| && Takes(front[0], t[..k]) && FullMatch(front[1..], t[k..]);
        FixedEnd(front[1..], q, n, s[k..]);
        CutBoth(s, k, n);
        assert Takes(all[0], s[..k]) && FullMatch(all[1..], s[k..]);
      }
      if FullMatch(all, s) {
        var k :| 0 <= k <= |s| && Takes(all[0], s[..k]) && FullMatch(all[1..], s[k..]);
        FixedEnd(front[1..], q, n, s[k..]);
        CutBoth(s, k, n);
        var t := s[..|s| - n];
        assert Takes(front[0], t[..k]) && FullMatch(front[1..], t[k..]);
      }
    }
  }

  lemma TakesFixed(q: Piece, n: nat, s: string)
    requires Fixed(q, n)
    ensures Takes(q, s) ==> |s| == n
  {
  }

  /** A piece before a last one of one length. */
  lemma FixedLast(p: Piece, q: Piece, n: nat, s: string)
    requires Fixed(q, n)
    ensures FullMatch([p, q], s) <==> n <= |s| && Takes(p, s[..|s| - n]) && Takes(q, s[|s| - n..])
  {
    hide FullMatch, Takes;
    assert [p] + [q] == [p, q];
    FixedEnd([p], q, n, s);
    if n <= |s| { LastPiece(p, s[..|s| - n]); }
  }

  // ---- Classes ----

  function One(allowed: char -> bool): Piece {
    Chars(allowed, 1, 1)
  }

  const LOWER := (c: char) => 'a' <= c <= 'z'
  const LOWER_DIGIT := (c: char) => 'a' <= c <= 'z' || '0' <= c <= '9'
  const LOWER_DIGIT_DASH := (c: char) => 'a' <= c <= 'z' || '0' <= c <= '9' || c == '-'
  const HEX := (c: char) => '0' <= c <= '9' || 'a' <= c <= 'f'
  const ANY_DIGIT := (c: char) => 'A' <= c <= 'Z' || 'a' <= c <= 'z' || '0' <= c <= '9'
  const ANY_DIGIT_SPACE := (c: char) => 'A' <= c <= 'Z' || 'a' <= c <= 'z' || '0' <= c <= '9' || c == ' '
  const LOWER_DIGIT_BAR := (c: char) => 'a' <= c <= 'z' || '0' <= c <= '9' || c == '_'
  const REFERENCE := (c: char) => 'a' <= c <= 'z' || '0' <= c <= '9' || c == '.' || c == '_' || c == '-'
  const REPOSITORY := (c: char) => 'a' <= c <= 'z' || '0' <= c <= '9' || c == '.' || c == '_' || c == '/' || c == '-'

  // ---- The expressions ----

  /** `[a-z][a-z0-9-]{2,126}` */
  lemma RevisionNameMatches(s: string)
    ensures RevisionName(s) <==> FullMatch([One(LOWER), Chars(LOWER_DIGIT_DASH, 2, 126)], s)
  {
    FixedFirst(One(LOWER), 1, [Chars(LOWER_DIGIT_DASH, 2, 126)], s);
    assert [One(LOWER)] + [Chars(LOWER_DIGIT_DASH, 2, 126)] == [One(LOWER), Chars(LOWER_DIGIT_DASH, 2, 126)];
    if s != "" {
      LastPiece(Chars(LOWER_DIGIT_DASH, 2, 126), s[1..]);
      if LowerAlnumDash(s[0]) { AllFrom(s, LowerAlnumDash); }
    }
  }

  /** `[a-z0-9][a-z0-9-]{0,62}[a-z0-9]` */
  lemma RevisionSuffixMatches(s: string)
    ensures RevisionSuffix(s) <==>
      FullMatch([One(LOWER_DIGIT), Chars(LOWER_DIGIT_DASH, 0, 62), One(LOWER_DIGIT)], s)
  {
    BetweenTwo(LOWER_DIGIT, Chars(LOWER_DIGIT_DASH, 0, 62), LOWER_DIGIT, s);
    if |s| >= 2 { Middle(s, LowerAlnumDash); }
  }

  /** One character before and one after a piece. */
  lemma BetweenTwo(a: char -> bool, p: Piece, b: char -> bool, s: string)
    ensures FullMatch([One(a), p, One(b)], s) <==>
      |s| >= 2 && a(s[0]) && Takes(p, s[1..|s| - 1]) && b(s[|s| - 1])
  {
    hide FullMatch, Takes;
    assert [One(a)] + [p, One(b)] == [One(a), p, One(b)];
    FixedFirst(One(a), 1, [p, One(b)], s);
    if s != "" {
      FixedLast(p, One(b), 1, s[1..]);
      OneTakes(a, s[..1]);
      if |s| >= 2 {
        CutEnds(s);
        OneTakes(b, s[1..][|s| - 2..]);
      }
    }
  }

  lemma Middle(s: string, p: char -> bool)
    requires |s| >= 2
    ensures All(s, p) <==> p(s[0]) && All(s[1..|s| - 1], p) && p(s[|s| - 1])
  {
    var middle := s[1..|s| - 1];
    assert forall i | 0 <= i < |middle| :: middle[i] == s[i + 1];
    assert forall i | 1 <= i < |s| - 1 :: s[i] == middle[i - 1];
  }

  lemma OneTakes(a: char -> bool, t: string)
    requires |t| == 1
    ensures Takes(One(a), t) <==> a(t[0])
  {
  }

  lemma CutEnds(s: string)
    requires |s| >= 2
    ensures s[1..][..|s[1..]| - 1] == s[1..|s| - 1] && s[1..][|s[1..]| - 1..] == [s[|s| - 1]]
  {
  }

  /** `[0-9a-f]{64}` */
  lemma Sha256TextMatches(s: string)
    ensures Sha256Text(s) <==> FullMatch([Chars(HEX, 64, 64)], s)
  {
    LastPiece(Chars(HEX, 64, 64), s);
  }

  /** `sha256:[0-9a-f]{64}` */
  lemma ImageDigestMatches(s: string)
    ensures ImageDigest(s) <==> FullMatch([Literal("sha256:"), Chars(HEX, 64, 64)], s)
  {
    assert [Literal("sha256:")] + [Chars(HEX, 64, 64)] == [Literal("sha256:"), Chars(HEX, 64, 64)];
    FixedFirst(Literal("sha256:"), 7, [Chars(HEX, 64, 64)], s);
    if |s| >= 7 { LastPiece(Chars(HEX, 64, 64), s[7..]); }
  }

  /** `[a-z][a-z0-9-]{1,62}[a-z0-9]` */
  lemma ResourceNameMatches(s: string)
    ensures EngineEvidence.ResourceName(s) <==>
      FullMatch([One(LOWER), Chars(LOWER_DIGIT_DASH, 1, 62), One(LOWER_DIGIT)], s)
  {
    BetweenTwo(LOWER, Chars(LOWER_DIGIT_DASH, 1, 62), LOWER_DIGIT, s);
    if |s| >= 2 { Middle(s, LowerAlnumDash); }
  }

  /** `[A-Za-z0-9][A-Za-z0-9 ]{1,62}[A-Za-z0-9]` */
  lemma LocationMatches(s: string)
    ensures Location(s) <==> FullMatch([One(ANY_DIGIT), Chars(ANY_DIGIT_SPACE, 1, 62), One(ANY_DIGIT)], s)
  {
    BetweenTwo(ANY_DIGIT, Chars(ANY_DIGIT_SPACE, 1, 62), ANY_DIGIT, s);
    if |s| >= 2 { Middle(s, LocationChar); }
  }

  /** `ai_enablement_[a-z0-9_]{3,96}` */
  lemma FailureCodeMatches(s: string)
    ensures Contract.FailureCode(s) <==> FullMatch([Literal("ai_enablement_"), Chars(LOWER_DIGIT_BAR, 3, 96)], s)
  {
    assert [Literal("ai_enablement_")] + [Chars(LOWER_DIGIT_BAR, 3, 96)] ==
           [Literal("ai_enablement_"), Chars(LOWER_DIGIT_BAR, 3, 96)];
    FixedFirst(Literal("ai_enablement_"), 14, [Chars(LOWER_DIGIT_BAR, 3, 96)], s);
    if |s| >= 14 { LastPiece(Chars(LOWER_DIGIT_BAR, 3, 96), s[14..]); }
  }

  /** `[a-z0-9][a-z0-9._-]{0,127}` */
  lemma ReferenceTextMatches(s: string)
    ensures OciArtifact.ReferenceText(s) <==> FullMatch([One(LOWER_DIGIT), Chars(REFERENCE, 0, 127)], s)
  {
    assert [One(LOWER_DIGIT)] + [Chars(REFERENCE, 0, 127)] == [One(LOWER_DIGIT), Chars(REFERENCE, 0, 127)];
    FixedFirst(One(LOWER_DIGIT), 1, [Chars(REFERENCE, 0, 127)], s);
    if s != "" { LastPiece(Chars(REFERENCE, 0, 127), s[1..]); }
  }

  /** `https://[a-z0-9][a-z0-9-]{1,22}[a-z0-9]\.vault\.azure\.net` */
  lemma VaultUrlMatches(s: string)
    ensures VaultUrl(s) <==>
      FullMatch([Literal("https://"), One(LOWER_DIGIT), Chars(LOWER_DIGIT_DASH, 1, 22), One(LOWER_DIGIT),
                 Literal(".vault.azure.net")], s)
  {
    hide FullMatch;
    var tail := [One(LOWER_DIGIT), Chars(LOWER_DIGIT_DASH, 1, 22), One(LOWER_DIGIT), Literal(".vault.azure.net")];
    assert [Literal("https://")] + tail ==
      [Literal("https://"), One(LOWER_DIGIT), Chars(LOWER_DIGIT_DASH, 1, 22), One(LOWER_DIGIT),
       Literal(".vault.azure.net")];
    FixedFirst(Literal("https://"), 8, tail, s);
    if |s| >= 8 {
      var host := [One(LOWER_DIGIT), Chars(LOWER_DIGIT_DASH, 1, 22), One(LOWER_DIGIT)];
      assert tail == host + [Literal(".vault.azure.net")];
      FixedEnd(host, Literal(".vault.azure.net"), 16, s[8..]);
      if |s| >= 24 {
        hide Takes;
        var name := s[8..][..|s| - 24];
        BetweenTwo(LOWER_DIGIT, Chars(LOWER_DIGIT_DASH, 1, 22), LOWER_DIGIT, name);
        assert name == s[8..|s| - 16] && s[8..][|s| - 24..] == s[|s| - 16..];
        VaultName(name);
      }
    }
  }

  lemma VaultName(name: string)
    ensures
      (|name| >= 2 && LOWER_DIGIT(name[0]) && Takes(Chars(LOWER_DIGIT_DASH, 1, 22), name[1..|name| - 1]) &&
       LOWER_DIGIT(name[|name| - 1])) <==>
      3 <= |name| <= 24 && LowerAlnum(name[0]) && LowerAlnum(name[|name| - 1]) && All(name, LowerAlnumDash)
  {
    if |name| >= 2 { Middle(name, LowerAlnumDash); }
  }

  /** Piece after piece at the places `at`: each is of the length from its place to the next. */
  predicate Placed(pieces: seq<Piece>, at: seq<nat>) {
    |at| == |pieces| + 1 && forall i | 0 <= i < |pieces| :: at[i] <= at[i + 1] && Fixed(pieces[i], at[i + 1] - at[i])
  }

  predicate TakesAt(pieces: seq<Piece>, at: seq<nat>, s: string, i: nat)
    requires Placed(pieces, at) && i < |pieces|
  {
    at[i + 1] <= |s| && Takes(pieces[i], s[at[i]..at[i + 1]])
  }

  lemma {:induction false} AllFixed(pieces: seq<Piece>, at: seq<nat>, s: string, k: nat)
    requires Placed(pieces, at) && k <= |pieces| && at[k] <= |s|
    ensures FullMatch(pieces[k..], s[at[k]..]) <==>
      at[|pieces|] == |s| && forall i | k <= i < |pieces| :: TakesAt(pieces, at, s, i)
    decreases |pieces| - k
  {
    hide Takes;
    if k < |pieces| {
      var n := at[k + 1] - at[k];
      assert [pieces[k]] + pieces[k + 1..] == pieces[k..];
      FixedFirst(pieces[k], n, pieces[k + 1..], s[at[k]..]);
      if at[k + 1] <= |s| {
        assert s[at[k]..][..n] == s[at[k]..at[k + 1]] && s[at[k]..][n..] == s[at[k + 1]..];
        AllFixed(pieces, at, s, k + 1);
        assert TakesAt(pieces, at, s, k) <==> Takes(pieces[k], s[at[k]..at[k + 1]]);
        assert FullMatch(pieces[k..], s[at[k]..]) <==>
          TakesAt(pieces, at, s, k) && FullMatch(pieces[k + 1..], s[at[k + 1]..]);
      } else {
        assert !TakesAt(pieces, at, s, k);
      }
    }
  }

  const VARIANT := (c: char) => c == '8' || c == '9' || c == 'a' || c == 'b'

  /** `[0-9a-f]{8}-[0-9a-f]{4}-4[0-9a-f]{3}-[89ab][0-9a-f]{3}-[0-9a-f]{12}` */
  lemma CanonicalUuid4Matches(s: string)
    ensures CanonicalUuid4(s) <==>
      FullMatch([Chars(HEX, 8, 8), Literal("-"), Chars(HEX, 4, 4), Literal("-4"), Chars(HEX, 3, 3), Literal("-"),
                 One(VARIANT), Chars(HEX, 3, 3), Literal("-"), Chars(HEX, 12, 12)], s)
  {
    hide FullMatch, TakesAt, Takes, CanonicalUuid4, Placed;
    UuidPlaced();
    AllFixed(UUID, PLACES, s, 0);
    assert s[PLACES[0]..] == s && UUID[0..] == UUID;
    UuidLength(s);
    if |s| == 36 {
      Uuid4Parts(s);
      UuidTakes(s);
    }
  }

  const UUID: seq<Piece> := [
    Chars(HEX, 8, 8), Literal("-"), Chars(HEX, 4, 4), Literal("-4"), Chars(HEX, 3, 3), Literal("-"),
    One(VARIANT), Chars(HEX, 3, 3), Literal("-"), Chars(HEX, 12, 12)]

  const PLACES: seq<nat> := [0, 8, 9, 13, 15, 18, 19, 20, 23, 24, 36]

  lemma UuidLength(s: string)
    ensures CanonicalUuid4(s) ==> |s| == 36
  {
  }

  lemma UuidPlaced()
    ensures Placed(UUID, PLACES)
  {
  }

  lemma UuidTakes(s: string)
    requires |s| == 36 && Placed(UUID, PLACES)
    ensures (forall i | 0 <= i < |UUID| :: TakesAt(UUID, PLACES, s, i)) <==>
      Takes(Chars(HEX, 8, 8), s[0..8]) && s[8..9] == "-" && Takes(Chars(HEX, 4, 4), s[9..13]) &&
      s[13..15] == "-4" && Takes(Chars(HEX, 3, 3), s[15..18]) && s[18..19] == "-" &&
      Takes(One(VARIANT), s[19..20]) && Takes(Chars(HEX, 3, 3), s[20..23]) && s[23..24] == "-" &&
      Takes(Chars(HEX, 12, 12), s[24..36])
  {
    hide Placed;
    assert TakesAt(UUID, PLACES, s, 0) <==> Takes(Chars(HEX, 8, 8), s[0..8]);
    assert TakesAt(UUID, PLACES, s, 1) <==> s[8..9] == "-";
    assert TakesAt(UUID, PLACES, s, 2) <==> Takes(Chars(HEX, 4, 4), s[9..13]);
    assert TakesAt(UUID, PLACES, s, 3) <==> s[13..15] == "-4";
    assert TakesAt(UUID, PLACES, s, 4) <==> Takes(Chars(HEX, 3, 3), s[15..18]);
    assert TakesAt(UUID, PLACES, s, 5) <==> s[18..19] == "-";
    assert TakesAt(UUID, PLACES, s, 6) <==> Takes(One(VARIANT), s[19..20]);
    assert TakesAt(UUID, PLACES, s, 7) <==> Takes(Chars(HEX, 3, 3), s[20..23]);
    assert TakesAt(UUID, PLACES, s, 8) <==> s[23..24] == "-";
    assert TakesAt(UUID, PLACES, s, 9) <==> Takes(Chars(HEX, 12, 12), s[24..36]);
  }

  lemma Uuid4Parts(s: string)
    requires |s| == 36
    ensures CanonicalUuid4(s) <==>
      Takes(Chars(HEX, 8, 8), s[0..8]) && s[8..9] == "-" && Takes(Chars(HEX, 4, 4), s[9..13]) &&
      s[13..15] == "-4" && Takes(Chars(HEX, 3, 3), s[15..18]) && s[18..19] == "-" &&
      Takes(One(VARIANT), s[19..20]) && Takes(Chars(HEX, 3, 3), s[20..23]) && s[23..24] == "-" &&
      Takes(Chars(HEX, 12, 12), s[24..36])
  {
    assert s[13..15] == [s[13], s[14]] && s[8..9] == [s[8]] && s[18..19] == [s[18]] && s[23..24] == [s[23]];
    assert forall i | 0 <= i < 8 :: s[0..8][i] == s[i];
    assert forall i | 0 <= i < 4 :: s[9..13][i] == s[i + 9];
    assert forall i | 0 <= i < 3 :: s[15..18][i] == s[i + 15];
    assert forall i | 0 <= i < 3 :: s[20..23][i] == s[i + 20];
    assert forall i | 0 <= i < 12 :: s[24..36][i] == s[i + 24];
    Run(s, 0, 8);
    Run(s, 9, 13);
    Run(s, 15, 18);
    Run(s, 20, 23);
    Run(s, 24, 36);
  }

  /** Hex digits from one place to another. */
  lemma Run(s: string, a: nat, b: nat)
    requires a <= b <= |s|
    ensures Takes(Chars(HEX, b - a, b - a), s[a..b]) <==> forall i | a <= i < b :: Hex(s[i])
  {
    assert forall i | a <= i < b :: s[i] == s[a..b][i - a];
  }

  /** `[a-z0-9][a-z0-9-]{2,49}\.azurecr\.io/[a-z0-9][a-z0-9._/-]{1,127}@sha256:[0-9a-f]{64}` */
  lemma ImageReferenceMatches(s: string)
    ensures ImageReference(s) <==>
      FullMatch([One(LOWER_DIGIT), Chars(LOWER_DIGIT_DASH, 2, 49), Literal(".azurecr.io/"), One(LOWER_DIGIT),
                 Chars(REPOSITORY, 1, 127), Literal("@sha256:"), Chars(HEX, 64, 64)], s)
  {
    var path := [One(LOWER_DIGIT), Chars(LOWER_DIGIT_DASH, 2, 49), Literal(".azurecr.io/"), One(LOWER_DIGIT),
                 Chars(REPOSITORY, 1, 127)];
    var marked := path + [Literal("@sha256:")];
    assert marked + [Chars(HEX, 64, 64)] ==
      [One(LOWER_DIGIT), Chars(LOWER_DIGIT_DASH, 2, 49), Literal(".azurecr.io/"), One(LOWER_DIGIT),
       Chars(REPOSITORY, 1, 127), Literal("@sha256:"), Chars(HEX, 64, 64)];
    FixedEnd(marked, Chars(HEX, 64, 64), 64, s);
    if |s| >= 64 {
      FixedEnd(path, Literal("@sha256:"), 8, s[..|s| - 64]);
      if |s| >= 72 {
        assert s[..|s| - 64][..|s| - 72] == s[..|s| - 72];
        assert s[..|s| - 64][|s| - 72..] == s[|s| - 72..|s| - 64];
        MarkedDigest(s);
        ImagePathMatches(s[..|s| - 72]);
      }
    }
  }

  lemma MarkedDigest(s: string)
    requires |s| >= 72
    ensures s[|s| - 72] == '@' && ImageDigest(s[|s| - 71..]) <==>
      s[|s| - 72..|s| - 64] == "@sha256:" && Takes(Chars(HEX, 64, 64), s[|s| - 64..])
  {
    var n := |s| - 72;
    assert "@sha256:" == "@" + "sha256:";
    assert s[n..n + 8] == [s[n]] + s[n + 1..n + 8];
    assert s[n + 1..][..7] == s[n + 1..n + 8] && s[n + 1..][7..] == s[n + 8..];
  }

  const HOST := Chars(LOWER_DIGIT_DASH, 2, 49)
  const REGISTRY: seq<Piece> := [Literal(".azurecr.io/"), One(LOWER_DIGIT), Chars(REPOSITORY, 1, 127)]

  lemma ImagePathMatches(s: string)
    ensures ImagePath(s) <==>
      FullMatch([One(LOWER_DIGIT), Chars(LOWER_DIGIT_DASH, 2, 49), Literal(".azurecr.io/"), One(LOWER_DIGIT),
                 Chars(REPOSITORY, 1, 127)], s)
  {
    assert [One(LOWER_DIGIT)] + ([HOST] + REGISTRY) ==
      [One(LOWER_DIGIT), Chars(LOWER_DIGIT_DASH, 2, 49), Literal(".azurecr.io/"), One(LOWER_DIGIT),
       Chars(REPOSITORY, 1, 127)];
    hide FullMatch, Takes, ImagePath, Front, SplitsAfter;
    FixedFirst(One(LOWER_DIGIT), 1, [HOST] + REGISTRY, s);
    if s != "" {
      OneTakes(LOWER_DIGIT, s[..1]);
      FrontPiece(HOST, REGISTRY, s[1..]);
      forall n: nat | n <= |s[1..]|
        ensures LOWER_DIGIT(s[0]) && Front(HOST, REGISTRY, s[1..], n) <==> SplitsAfter(s, n)
      {
        SplitFront(s, n);
      }
      PathSplits(s);
    } else {
      EmptyPath(s);
    }
  }

  lemma SplitFront(s: string, n: nat)
    requires s != "" && n <= |s[1..]|
    ensures LOWER_DIGIT(s[0]) && Front(HOST, REGISTRY, s[1..], n) <==> SplitsAfter(s, n)
  {
    hide FullMatch, Takes, ImageSplit;
    SplitMatches(s, n + 1);
    assert s[1..][..n] == s[1..n + 1] && s[1..][n..] == s[n + 1..];
  }

  /** How much a first piece may take. */
  ghost predicate Front(p: Piece, rest: seq<Piece>, s: string, n: nat)
    requires n <= |s|
  {
    Takes(p, s[..n]) && FullMatch(rest, s[n..])
  }

  lemma FrontPiece(p: Piece, rest: seq<Piece>, s: string)
    ensures FullMatch([p] + rest, s) <==> exists n | 0 <= n <= |s| :: Front(p, rest, s, n)
  {
    var all := [p] + rest;
    assert all[0] == p && all[1..] == rest;
    if FullMatch(all, s) {
      var n :| 0 <= n <= |s| && Takes(all[0], s[..n]) && FullMatch(all[1..], s[n..]);
      assert Front(p, rest, s, n);
    }
    if n :| 0 <= n <= |s| && Front(p, rest, s, n) {
      assert Takes(all[0], s[..n]) && FullMatch(all[1..], s[n..]);
    }
  }

  predicate SplitsAfter(s: string, n: nat) {
    3 <= n + 1 <= 50 && ImageSplit(s, n + 1)
  }

  /** A path splits somewhere in it. */
  lemma PathSplits(s: string)
    requires s != ""
    ensures ImagePath(s) <==> exists n | 0 <= n <= |s[1..]| :: SplitsAfter(s, n)
  {
    if ImagePath(s) {
      var i :| 3 <= i <= 50 && ImageSplit(s, i);
      assert SplitsAfter(s, i - 1);
    }
    if n :| 0 <= n <= |s[1..]| && SplitsAfter(s, n) { assert ImageSplit(s, n + 1); }
  }

  lemma EmptyPath(s: string)
    requires s == ""
    ensures !ImagePath(s)
  {
  }

  /** One place to split a path at: a host before it, and the registry domain and a repository from it on. */
  lemma SplitMatches(s: string, i: nat)
    requires 1 <= i <= |s|
    ensures ImageSplit(s, i) && 3 <= i <= 50 <==>
      LowerAlnum(s[0]) && Takes(HOST, s[1..i]) && FullMatch(REGISTRY, s[i..])
  {
    hide FullMatch;
    var name := [One(LOWER_DIGIT), Chars(REPOSITORY, 1, 127)];
    assert [Literal(".azurecr.io/")] + name == REGISTRY;
    FixedFirst(Literal(".azurecr.io/"), 12, name, s[i..]);
    if |s| >= i + 12 {
      assert s[i..][..12] == s[i..i + 12] && s[i..][12..] == s[i + 12..];
      assert [One(LOWER_DIGIT)] + [Chars(REPOSITORY, 1, 127)] == name;
      FixedFirst(One(LOWER_DIGIT), 1, [Chars(REPOSITORY, 1, 127)], s[i + 12..]);
      if |s| > i + 12 {
        LastPiece(Chars(REPOSITORY, 1, 127), s[i + 12..][1..]);
        if RepositoryChar(s[i + 12]) { AllFrom(s[i + 12..], RepositoryChar); }
      }
    }
    assert s[..i][1..] == s[1..i];
    if LowerAlnum(s[0]) { AllFrom(s[..i], LowerAlnumDash); }
  }

  lemma AllFrom(t: string, p: char -> bool)
    requires t != "" && p(t[0])
    ensures All(t, p) <==> All(t[1..], p)
  {
    assert forall j | 0 <= j < |t| - 1 :: t[1..][j] == t[j + 1];
    assert forall j | 1 <= j < |t| :: t[j] == t[1..][j - 1];
  }
}
