/**
 * The activation and reset links the account mails carry, the uid they embed,
 * and how the views read a user's primary key back out of that uid.
 */
module AccountUtils {
  import opened Wrappers
  import opened PyText
  import opened Base64Url

  /** `force_bytes` on ASCII text: one byte per character. */
  function AsciiBytes(s: string): (b: seq<byte>)
    requires forall c | c in s :: IsAscii(c)
    ensures |b| == |s|
    decreases |s|
  {
    if s == [] then []
    else
      assert s[0] in s && IsAscii(s[0]);
      [s[0] as int as byte] + AsciiBytes(s[1..])
  }

  /**
   * `force_str` on bytes, restricted to ASCII: None (the decode error) as soon
   * as a byte is outside 0..127.
   */
  function AsciiText(b: seq<byte>): (r: Option<string>)
    ensures r.Some? ==> |r.value| == |b|
    decreases |b|
  {
    if b == [] then Some("")
    else if b[0] >= 128 then None
    else
      match AsciiText(b[1..])
      case None => None
      case Some(t) => Some([b[0] as int as char] + t)
  }

  lemma {:induction false} AsciiTextOfBytes(s: string)
    requires forall c | c in s :: IsAscii(c)
    ensures AsciiText(AsciiBytes(s)) == Some(s)
    decreases |s|
  {
    if s != [] {
      assert s[0] in s;
      AsciiTextOfBytes(s[1..]);
      assert [s[0]] + s[1..] == s;
    }
  }

  /** `urlsafe_base64_encode(force_bytes(user.pk))`: non-empty, drawn from the URL-safe alphabet. */
  function Uid(pk: int): (u: string)
    ensures u != [] && forall c | c in u :: IsUrlSafe(c)
  {
    Encode(AsciiBytes(Str(pk)))
  }

  /**
   * What the views do with `uidb64` before the lookup:
   * `force_str(urlsafe_base64_decode(uidb64))`, then the `int()` the primary-key
   * lookup applies. None stands for the ValueError they catch.
   */
  function UidToPk(uid: string): Option<int> {
    match Decode(uid)
    case None => None
    case Some(b) =>
      match AsciiText(b)
      case None => None
      case Some(t) => PyInt(t)
  }

  /** The uid of the links decodes back to the user's primary key. */
  lemma {:induction false} UidRoundTrip(pk: int)
    ensures UidToPk(Uid(pk)) == Some(pk)
  {
    var s := Str(pk);
    DecodeEncode(AsciiBytes(s));
    AsciiTextOfBytes(s);
    PyIntOfStr(pk);
  }

  const VerifyRoute := "/verify-email/"
  const ResetRoute := "/reset-password/"

  /** The `verification_url` of `send_verification_email`. */
  function VerificationLink(frontendUrl: string, pk: int, token: string): string {
    frontendUrl + VerifyRoute + Uid(pk) + "/" + token + "/"
  }

  /** The `reset_url` of `send_password_reset_email`. */
  function ResetLink(frontendUrl: string, pk: int, token: string): string {
    frontendUrl + ResetRoute + Uid(pk) + "/" + token + "/"
  }

  predicate NoSlash(s: string) {
    forall c | c in s :: c != '/'
  }

  /** The position of the first `/` in `s`, or `|s|` when there is none. */
  function SlashAt(s: string): (i: nat)
    ensures i <= |s| && NoSlash(s[..i])
    ensures i < |s| ==> s[i] == '/'
    decreases |s|
  {
    if s == [] then 0
    else if s[0] == '/' then 0
    else
      var j := SlashAt(s[1..]);
      assert s[..j + 1] == [s[0]] + s[1..][..j];
      j + 1
  }

  /**
   * The route parameters `<uidb64>/<token>/` at the end of a path: two
   * non-empty segments without `/` (the `str` converter), each closed by `/`.
   */
  function SplitSegments(path: string): (r: Option<(string, string)>)
    ensures r.Some? ==>
      && path == r.value.0 + "/" + r.value.1 + "/"
      && r.value.0 != [] && NoSlash(r.value.0) && r.value.1 != [] && NoSlash(r.value.1)
  {
    var i := SlashAt(path);
    if i == 0 || i == |path| then None
    else
      var rest := path[i + 1..];
      var j := SlashAt(rest);
      if j == 0 || j != |rest| - 1 then None
      else
        assert path == path[..i] + "/" + rest[..j] + "/";
        Some((path[..i], rest[..j]))
  }

  lemma {:induction false} SlashAtNone(a: string, t: string)
    requires NoSlash(a)
    ensures SlashAt(a + "/" + t) == |a|
    decreases |a|
  {
    if a != [] {
      assert a[0] in a;
      assert (a + "/" + t)[1..] == a[1..] + "/" + t;
      assert forall c | c in a[1..] :: c in a;
      SlashAtNone(a[1..], t);
    }
  }

  /** Two slash-free segments are recovered exactly from `a/b/`. */
  lemma {:induction false} SplitSegmentsOf(a: string, b: string)
    requires a != [] && NoSlash(a) && b != [] && NoSlash(b)
    ensures SplitSegments(a + "/" + b + "/") == Some((a, b))
  {
    var path := a + "/" + b + "/";
    SlashAtNone(a, b + "/");
    assert a + "/" + (b + "/") == path;
    assert path[|a| + 1..] == b + "/";
    SlashAtNone(b, "");
    assert b + "/" + "" == b + "/";
    assert path[..|a|] == a;
    assert (b + "/")[..|b|] == b;
  }

  /** The route parameters of a link that starts with `prefix`. */
  function ParseLink(prefix: string, link: string): Option<(string, string)> {
    if |prefix| <= |link| && link[..|prefix|] == prefix then SplitSegments(link[|prefix|..]) else None
  }

  lemma {:induction false} ParseLinkOf(prefix: string, pk: int, token: string)
    requires token != [] && NoSlash(token)
    ensures ParseLink(prefix, prefix + Uid(pk) + "/" + token + "/") == Some((Uid(pk), token))
  {
    var u := Uid(pk);
    var link := prefix + u + "/" + token + "/";
    assert link == prefix + (u + "/" + token + "/");
    assert link[..|prefix|] == prefix;
    assert link[|prefix|..] == u + "/" + token + "/";
    assert NoSlash(u) by {
      forall c | c in u ensures c != '/' {
        assert IsUrlSafe(c);
      }
    }
    SplitSegmentsOf(u, token);
  }

  /**
   * Both links carry the same `<uid>/<token>/` tail, it splits back into
   * exactly that uid and token (the token as issued has no `/`), and the uid
   * names the user the link was made for.
   */
  lemma {:induction false} LinksRoundTrip(frontendUrl: string, pk: int, token: string)
    requires token != [] && NoSlash(token)
    ensures ParseLink(frontendUrl + VerifyRoute, VerificationLink(frontendUrl, pk, token)) == Some((Uid(pk), token))
    ensures ParseLink(frontendUrl + ResetRoute, ResetLink(frontendUrl, pk, token)) == Some((Uid(pk), token))
    ensures UidToPk(Uid(pk)) == Some(pk)
  {
    ParseLinkOf(frontendUrl + VerifyRoute, pk, token);
    ParseLinkOf(frontendUrl + ResetRoute, pk, token);
    UidRoundTrip(pk);
  }
}
