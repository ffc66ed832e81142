/** The regular expressions whose interplay matters, written out character by character. */
module Patterns {

  predicate LowerAlnum(c: char) {
    'a' <= c <= 'z' || '0' <= c <= '9'
  }

  predicate LowerAlnumDash(c: char) {
    LowerAlnum(c) || c == '-'
  }

  predicate RepositoryChar(c: char) {
    LowerAlnumDash(c) || c == '.' || c == '_' || c == '/'
  }

  predicate Hex(c: char) {
    '0' <= c <= '9' || 'a' <= c <= 'f'
  }

  predicate All(s: string, p: char -> bool) {
    forall i | 0 <= i < |s| :: p(s[i])
  }

  /** `[a-z][a-z0-9-]{2,126}` */
  predicate RevisionName(s: string) {
    3 <= |s| <= 127 && 'a' <= s[0] <= 'z' && All(s, LowerAlnumDash)
  }

  /** `[a-z0-9][a-z0-9-]{0,62}[a-z0-9]` */
  predicate RevisionSuffix(s: string) {
    2 <= |s| <= 64 && LowerAlnum(s[0]) && LowerAlnum(s[|s| - 1]) && All(s, LowerAlnumDash)
  }

  /** `[0-9a-f]{64}` */
  predicate Sha256Text(s: string) {
    |s| == 64 && All(s, Hex)
  }

  /** `sha256:[0-9a-f]{64}` */
  predicate ImageDigest(s: string) {
    |s| == 71 && s[..7] == "sha256:" && Sha256Text(s[7..])
  }

  /** A registry host, then a repository, then `@` and a digest. */
  predicate ImageReference(s: string) {
    |s| >= 72 && s[|s| - 72] == '@' && ImageDigest(s[|s| - 71..]) && ImagePath(s[..|s| - 72])
  }

  predicate ImagePath(path: string) {
    exists i | 3 <= i <= 50 :: ImageSplit(path, i)
  }

  predicate ImageSplit(path: string, i: nat) {
    0 < i && i + 14 <= |path| && |path| <= i + 140 &&
    LowerAlnum(path[0]) && All(path[..i], LowerAlnumDash) &&
    path[i..i + 12] == ".azurecr.io/" &&
    LowerAlnum(path[i + 12]) && All(path[i + 12..], RepositoryChar)
  }

  /** A UUID in canonical text form, of version 4 and of the RFC 4122 variant. */
  predicate CanonicalUuid4(s: string) {
    |s| == 36 && s[14] == '4' && (s[19] == '8' || s[19] == '9' || s[19] == 'a' || s[19] == 'b') &&
    forall i | 0 <= i < 36 :: if i == 8 || i == 13 || i == 18 || i == 23 then s[i] == '-' else Hex(s[i])
  }

  /** `https://[a-z0-9][a-z0-9-]{1,22}[a-z0-9]\.vault\.azure\.net` */
  predicate VaultUrl(s: string) {
    27 <= |s| <= 48 && s[..8] == "https://" && s[|s| - 16..] == ".vault.azure.net" &&
    LowerAlnum(s[8]) && LowerAlnum(s[|s| - 17]) && All(s[8..|s| - 16], LowerAlnumDash)
  }

  /** `[A-Za-z0-9][A-Za-z0-9 ]{1,62}[A-Za-z0-9]` */
  predicate Location(s: string) {
    3 <= |s| <= 64 && LocationChar(s[0]) && s[0] != ' ' && s[|s| - 1] != ' ' && All(s, LocationChar)
  }

  predicate LocationChar(c: char) {
    LowerAlnum(c) || 'A' <= c <= 'Z' || c == ' '
  }

  predicate StartsAt(s: string, mark: string, i: int) {
    0 <= i && i + |mark| <= |s| && s[i..i + |mark|] == mark
  }

  /** Where `mark` last starts in `s` at or before index `from`; -1 when it does not. */
  function LastAt(s: string, mark: string, from: int): (at: int)
    ensures -1 <= at && (0 <= at ==> at <= from && StartsAt(s, mark, at))
    ensures forall j | at < j <= from :: !StartsAt(s, mark, j)
    decreases from + 1
  {
    if from < 0 then -1
    else if StartsAt(s, mark, from) then from
    else LastAt(s, mark, from - 1)
  }

  /** The text after the last `mark`; the whole text when there is none (Python's `rsplit(mark, 1)[-1]`). */
  function AfterLast(s: string, mark: string): string {
    var at := LastAt(s, mark, |s|);
    if at < 0 then s else s[at + |mark|..]
  }

  /** Splitting at the last `mark` finds a tail in which `mark` cannot start. */
  lemma AfterLastIsTail(head: string, mark: string, tail: string)
    requires |mark| > 0 && mark[0] !in tail && mark[0] !in mark[1..]
    ensures AfterLast(head + mark + tail, mark) == tail
  {
    var s := head + mark + tail;
    assert s[|head|..|head| + |mark|] == mark;
    assert StartsAt(s, mark, |head|);
  }

  /** What follows the last `@` of an image reference is its digest. */
  lemma ImageDigestOf(image: string)
    requires ImageReference(image)
    ensures |image| >= 72 && AfterLast(image, "@") == image[|image| - 71..] && ImageDigest(AfterLast(image, "@"))
  {
    var n := |image| - 72;
    var digest := image[n + 1..];
    assert digest == digest[..7] + digest[7..] && digest[..7] == "sha256:";
    assert forall i | 7 <= i < 71 :: digest[i] == digest[7..][i - 7];
    assert forall i | 0 <= i < 7 :: digest[i] == digest[..7][i];
    assert image == image[..n] + "@" + digest;
    AfterLastIsTail(image[..n], "@", digest);
  }
}
