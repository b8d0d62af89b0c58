/**
 Derivation of OpenMeter keys: meter slugs, rate card keys and feature keys.

 Unicode lowercasing and SHA-256 are parameters: every result below holds for any
 lowercasing that leaves key characters alone and for any digest function.
 */
module Keys {

  const KEY_MAX_LEN := 64
  const KEY_HASH_LEN := 10
  const SLUG_HASH_LEN := 8

  predicate IsAlnum(c: char) {
    'a' <= c <= 'z' || '0' <= c <= '9'
  }

  predicate IsKeyChar(c: char) {
    IsAlnum(c) || c == '_'
  }

  /** OpenMeter's rule `^[a-z0-9]+(?:_[a-z0-9]+)*$`, written out position by position. */
  predicate ValidKey(s: string) {
    && s != ""
    && s[0] != '_'
    && s[|s| - 1] != '_'
    && (forall i :: 0 <= i < |s| ==> IsKeyChar(s[i]))
    && (forall i :: 0 <= i < |s| - 1 ==> !(s[i] == '_' && s[i + 1] == '_'))
  }

  /** A hex encoded SHA-256 digest. */
  type Digest = s: string | |s| == 64 && forall i :: 0 <= i < |s| ==> IsAlnum(s[i])
    witness seq(64, i => '0')

  /** Rune-wise lowercasing: the identity on characters a key may contain. */
  type Lowering = f: char -> char | forall c :: IsKeyChar(c) ==> f(c) == c
    witness (c: char) => c

  function Lowered(s: string, lower: Lowering): (r: string)
    ensures |r| == |s|
    ensures forall i :: 0 <= i < |s| ==> r[i] == lower(s[i])
  {
    seq(|s|, i requires 0 <= i < |s| => lower(s[i]))
  }

  /** Parts of a text, first to last. */
  datatype Parts = NoParts | Parts(init: Parts, last: string)

  /** Every part is a non-empty run of [a-z0-9]. */
  predicate AllRuns(parts: Parts) {
    parts.Parts? ==>
      AllRuns(parts.init) && parts.last != "" && forall i :: 0 <= i < |parts.last| ==> IsAlnum(parts.last[i])
  }

  /** The maximal runs of [a-z0-9] in the first n characters of s, in order. */
  function Runs(s: string, n: nat): (parts: Parts)
    requires n <= |s|
    ensures AllRuns(parts) && (n > 0 && IsAlnum(s[n - 1]) ==> parts.Parts?)
  {
    if n == 0 then NoParts
    else
      var before := Runs(s, n - 1);
      if !IsAlnum(s[n - 1]) then before
      else if n > 1 && IsAlnum(s[n - 2]) then Parts(before.init, before.last + [s[n - 1]])
      else Parts(before, [s[n - 1]])
  }

  /** The parts joined by single underscores. */
  function Join(parts: Parts): string {
    match parts
    case NoParts => ""
    case Parts(init, last) => if init.NoParts? then last else Join(init) + "_" + last
  }

  /** What sanitizing means: the alphanumeric runs of the lowercased text, joined by "_". */
  function Sanitized(s: string, lower: Lowering): string {
    Join(Runs(Lowered(s, lower), |s|))
  }

  lemma {:induction false} JoinOfRunsIsKey(parts: Parts)
    requires AllRuns(parts)
    ensures parts.NoParts? ==> Join(parts) == ""
    ensures parts.Parts? ==> ValidKey(Join(parts))
  {
    if parts.Parts? && parts.init.Parts? {
      JoinOfRunsIsKey(parts.init);
      KeyThenRun(Join(parts.init), parts.last);
    }
  }

  lemma KeyThenRun(key: string, run: string)
    requires ValidKey(key) && run != "" && forall i :: 0 <= i < |run| ==> IsAlnum(run[i])
    ensures ValidKey(key + "_" + run)
  {
  }

  /** The loop of sanitizeKeyPart, shared by MeterSlug: one pass with a pending separator. */
  method SanitizeKeyPart(s: string, lower: Lowering) returns (r: string)
    ensures r == Sanitized(s, lower)
    ensures r == "" || ValidKey(r)
  {
    var text := Lowered(s, lower);
    r := "";
    var pendingUnderscore := false;
    for i := 0 to |text|
      invariant r == Join(Runs(text, i))
      invariant r == "" <==> Runs(text, i).NoParts?
      invariant pendingUnderscore <==> i > 0 && !IsAlnum(text[i - 1])
    {
      ghost var before := Runs(text, i);
      if IsAlnum(text[i]) {
        if i > 0 && IsAlnum(text[i - 1]) {
          ExtendLast(before, text[i]);
        }
        if pendingUnderscore && |r| > 0 {
          r := r + "_";
        }
        pendingUnderscore := false;
        r := r + [text[i]];
      } else {
        pendingUnderscore := true;
      }
    }
    JoinOfRunsIsKey(Runs(text, |text|));
  }

  lemma ExtendLast(parts: Parts, c: char)
    requires parts.Parts?
    ensures Join(Parts(parts.init, parts.last + [c])) == Join(parts) + [c]
  {
    var front := Join(parts.init) + "_";
    assert front + (parts.last + [c]) == (front + parts.last) + [c];
  }

  /** A key survives sanitizing unchanged. */
  lemma SanitizeIsIdentityOnKeys(s: string, lower: Lowering)
    requires ValidKey(s)
    ensures Sanitized(s, lower) == s
  {
    assert Lowered(s, lower) == s;
    PrefixOfKey(s, |s|);
    assert s[..|s|] == s;
  }

  lemma LastTwo(s: string, n: nat)
    requires 2 <= n <= |s|
    ensures s[..n] == s[..n - 1] + [s[n - 1]] == s[..n - 2] + [s[n - 2]] + [s[n - 1]]
  {
  }

  lemma {:induction false} PrefixOfKey(s: string, n: nat)
    requires ValidKey(s) && 0 < n <= |s|
    ensures Runs(s, n).Parts?
    ensures Join(Runs(s, n)) == if s[n - 1] == '_' then s[..n - 1] else s[..n]
  {
    if n == 1 {
      assert Runs(s, 0) == NoParts && s[..1] == [s[0]];
    } else {
      PrefixOfKey(s, n - 1);
      if s[n - 1] == '_' {
        assert s[n - 2] != '_';
      } else if s[n - 2] == '_' {
        LastTwo(s, n);
      } else {
        ExtendLast(Runs(s, n - 1), s[n - 1]);
        LastTwo(s, n);
      }
    }
  }

  /** strings.TrimRight(s, "_"). */
  function TrimRight(s: string): (r: string)
    ensures |r| <= |s| && r == s[..|r|]
    ensures r != "" ==> r[|r| - 1] != '_'
    ensures forall i :: |r| <= i < |s| ==> s[i] == '_'
  {
    if s != "" && s[|s| - 1] == '_' then TrimRight(s[..|s| - 1]) else s
  }

  /**
   key is text and a digest of so many characters; a text that is too long is cut to leave room, and then loses the
   separators at its end.
   */
  ghost predicate KeyedBy(key: string, text: string, digest: Digest, length: nat)
    requires length < KEY_MAX_LEN
  {
    var n, room := |key| - length - 1, KEY_MAX_LEN - length - 1;
    && n >= 0 && key[n..] == "_" + digest[..length] && key[..n] <= text
    && (|text| <= room ==> n == |text|)
    && (|text| > room ==> n <= room && forall i :: n <= i < room ==> text[i] == '_')
  }

  /** text, cut if it is too long, and a digest of so many characters. */
  function WithDigest(text: string, digest: Digest, length: nat): (r: string)
    requires 0 < length < KEY_MAX_LEN
    ensures KeyedBy(r, text, digest, length) && |r| <= KEY_MAX_LEN
    ensures ValidKey(text) && length < KEY_MAX_LEN - 1 ==> ValidKey(r)
  {
    var room := KEY_MAX_LEN - length - 1;
    var front := if |text| > room then TrimRight(text[..room]) else text;
    FrontAndDigest(front, digest[..length]);
    CutIsKey(text, room, digest[..length]);
    front + "_" + digest[..length]
  }

  lemma FrontAndDigest(front: string, suffix: string)
    ensures (front + "_" + suffix)[|front|..] == "_" + suffix && (front + "_" + suffix)[..|front|] == front
  {
  }

  lemma CutIsKey(text: string, room: nat, run: string)
    requires run != "" && forall i :: 0 <= i < |run| ==> IsAlnum(run[i])
    ensures ValidKey(text) && room > 0 ==>
      ValidKey((if |text| > room then TrimRight(text[..room]) else text) + "_" + run)
  {
    if ValidKey(text) && room > 0 {
      if |text| > room {
        CutThenRun(text, room, run);
      } else {
        KeyThenRun(text, run);
      }
    }
  }

  function MeterSlug(name: string, lower: Lowering, sha: string -> Digest): (r: string)
    ensures ValidKey(r) && |r| <= KEY_MAX_LEN
    ensures var slug := Sanitized(name, lower);
      if slug != "" && |slug| <= KEY_MAX_LEN then r == slug
      else KeyedBy(r, if slug == "" then "meter" else slug, sha(name), SLUG_HASH_LEN)
  {
    var slug := Sanitized(name, lower);
    JoinOfRunsIsKey(Runs(Lowered(name, lower), |name|));
    assert ValidKey("meter");
    if slug != "" && |slug| <= KEY_MAX_LEN then slug
    else WithDigest(if slug == "" then "meter" else slug, sha(name), SLUG_HASH_LEN)
  }

  /** Existing slugs keep their identity, so deriving a slug twice changes nothing. */
  lemma MeterSlugIdempotent(name: string, lower: Lowering, sha: string -> Digest)
    ensures forall key :: ValidKey(key) && |key| <= KEY_MAX_LEN ==> MeterSlug(key, lower, sha) == key
    ensures MeterSlug(MeterSlug(name, lower, sha), lower, sha) == MeterSlug(name, lower, sha)
  {
    forall key | ValidKey(key) && |key| <= KEY_MAX_LEN ensures MeterSlug(key, lower, sha) == key {
      SanitizeIsIdentityOnKeys(key, lower);
    }
  }

  /** A key cut anywhere and trimmed is a key, and stays one with a run appended. */
  lemma CutThenRun(key: string, n: nat, run: string)
    requires ValidKey(key) && 0 < n <= |key| && run != "" && forall i :: 0 <= i < |run| ==> IsAlnum(run[i])
    ensures ValidKey(TrimRight(key[..n]) + "_" + run)
  {
    var p := key[..n];
    assert p[0] != '_';
    KeyThenRun(TrimRight(p), run);
  }

  /** boundedKey: readable text plus a short digest, cut to OpenMeter's limit. */
  function BoundedKey(readable: string, fallback: string, identity: string, sha: string -> Digest): (r: string)
    requires ValidKey(fallback)
    ensures (readable == "" || ValidKey(readable)) ==> ValidKey(r)
    ensures KeyedBy(r, if readable == "" then fallback else readable, sha(identity), KEY_HASH_LEN)
    ensures |r| <= KEY_MAX_LEN
  {
    WithDigest(if readable == "" then fallback else readable, sha(identity), KEY_HASH_LEN)
  }
}
