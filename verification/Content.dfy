/** Artifact bytes, SHA-256 digests and the option type used by every other module. */
module Content {

  datatype Option<+T> = None | Some(value: T)

  newtype Byte = b: int | 0 <= b < 256
  type Bytes = seq<Byte>

  predicate IsHexDigit(c: char) {
    '0' <= c <= '9' || 'a' <= c <= 'f'
  }

  /** What hex.EncodeToString makes of a 32-byte sum. */
  predicate IsHexDigest(s: string) {
    |s| == 64 && forall i | 0 <= i < |s| :: IsHexDigit(s[i])
  }

  /** SHA-256 followed by hex encoding. Nothing is known of it but the shape of its result,
      so every theorem over a Sha256 holds for all such functions. */
  type Sha256 = f: Bytes -> string | forall b :: IsHexDigest(f(b))
    witness (b: Bytes) => seq(64, _ => '0')

  ghost predicate Injective(sha: Sha256) {
    forall a, b :: sha(a) == sha(b) ==> a == b
  }

  /** What the storage directory is called; New refuses the empty name. */
  type Root = s: string | s != "" witness "/"

  /** The eight hex characters that Put appends to the name of its temporary file. */
  type Stamp = s: string | |s| == 8 && forall i | 0 <= i < 8 :: IsHexDigit(s[i]) witness "32303236"

  const ALGORITHM := "sha256:"

  /** The checksum that a provider computes while it copies a stream. */
  function Checksum(sha: Sha256, content: Bytes): string {
    ALGORITHM + sha(content)
  }

  predicate HasPrefix(s: string, prefix: string) {
    |prefix| <= |s| && s[..|prefix|] == prefix
  }

  predicate HasSuffix(s: string, suffix: string) {
    |suffix| <= |s| && s[|s| - |suffix|..] == suffix
  }

  lemma PrefixIs(s: string, prefix: string)
    ensures HasPrefix(s, prefix) <==> exists rest :: s == prefix + rest
    ensures forall rest | s == prefix + rest :: TrimPrefix(s, prefix) == rest
  {
    if HasPrefix(s, prefix) { assert s == prefix + s[|prefix|..]; }
    forall rest | s == prefix + rest
      ensures HasPrefix(s, prefix) && s[|prefix|..] == rest
    {
      assert s[..|prefix|] == prefix;
    }
  }

  lemma SuffixIs(s: string, suffix: string)
    ensures HasSuffix(s, suffix) <==> exists front :: s == front + suffix
  {
    if HasSuffix(s, suffix) { assert s == s[..|s| - |suffix|] + suffix; }
    if front :| s == front + suffix { assert s[|front|..] == suffix; }
  }

  function TrimPrefix(s: string, prefix: string): string {
    if HasPrefix(s, prefix) then s[|prefix|..] else s
  }

  predicate IsDigest(digest: string) {
    HasPrefix(digest, ALGORITHM) && IsHexDigest(TrimPrefix(digest, ALGORITHM))
  }

  lemma ChecksumIsDigest(sha: Sha256, content: Bytes)
    ensures IsDigest(Checksum(sha, content))
    ensures TrimPrefix(Checksum(sha, content), ALGORITHM) == sha(content)
    ensures |Checksum(sha, content)| == 71 && Checksum(sha, content)[..7] == "sha256:"
  {
    var c := Checksum(sha, content);
    assert c[..|ALGORITHM|] == ALGORITHM;
    assert c[|ALGORITHM|..] == sha(content);
  }

  /** The digests that handlers make up when the client sends none: an algorithm prefix,
      a word and a clock reading. No such string is the checksum of anything. */
  lemma SyntheticDigestNeverMatches(sha: Sha256, word: string, clock: string, content: Bytes)
    requires word in {"upload-", "manifest-"}
    ensures Checksum(sha, content) != ALGORITHM + word + clock
  {
    assert IsHexDigit(sha(content)[0]) && !IsHexDigit(word[0]);
    assert Checksum(sha, content)[|ALGORITHM|] == sha(content)[0];
    assert (ALGORITHM + word + clock)[|ALGORITHM|] == word[0];
  }
}
