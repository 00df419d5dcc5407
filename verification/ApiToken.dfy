/** Tenant references and API tokens (packages/server/src/tenants/registry-memory.ts:71-77, 376-429). */
module ApiToken {
  import opened Octets
  import opened Options
  import Base32

  datatype Env = Live | Test

  datatype Token = Token(env: Env, tenantRef: string, tail: string)

  function EnvText(env: Env): (s: string)
    ensures |s| == 4
  {
    if env.Live? then "live" else "test"
  }

  predicate IsRefChar(c: char) {
    'a' <= c <= 'z' || '0' <= c <= '9' || c == '-'
  }

  predicate IsTailChar(c: char) {
    'A' <= c <= 'Z' || '2' <= c <= '7'
  }

  /** `[a-z0-9-]+` */
  predicate IsRef(s: string) {
    s != "" && forall i :: 0 <= i < |s| ==> IsRefChar(s[i])
  }

  /** `[A-Z2-7]{32}` */
  predicate IsTail(s: string) {
    |s| == 32 && forall i :: 0 <= i < |s| ==> IsTailChar(s[i])
  }

  function Prefix(env: Env): (s: string)
    ensures |s| == 9
  {
    "zts_" + EnvText(env) + "_"
  }

  function TokenText(t: Token): (s: string)
    ensures |s| == 9 + |t.tenantRef| + 1 + |t.tail|
  {
    Prefix(t.env) + t.tenantRef + "_" + t.tail
  }

  /** The match of the token pattern: its reference holds no underscore, so the four fields are where they must be. */
  function ParseToken(s: string): Option<Token> {
    if |s| < 43 then None
    else
      var ref, tail := s[9..|s| - 33], s[|s| - 32..];
      if s[|s| - 33] != '_' || !IsRef(ref) || !IsTail(tail) then None
      else if s[..9] == Prefix(Live) then Some(Token(Live, ref, tail))
      else if s[..9] == Prefix(Test) then Some(Token(Test, ref, tail))
      else None
  }

  /** `issue`: the token for a reference, from twenty random bytes. */
  method Issue(env: Env, tenantRef: string, random: seq<byte>) returns (token: string, t: Token)
    requires |random| == 20
    ensures token == TokenText(t) && t == Token(env, tenantRef, Base32.Encoding(random)) && IsTail(t.tail)
    ensures ParseToken(token) == if IsRef(tenantRef) then Some(t) else None
  {
    var encoded := Base32.Base32Encode(random);
    forall i | 0 <= i < |encoded| ensures IsTailChar(encoded[i]) {
      Base32.EncodingLetters(random, i);
    }
    assert encoded[..32] == encoded;
    t := Token(env, tenantRef, encoded[..32]);
    token := Prefix(env) + tenantRef + "_" + encoded[..32];
    ParsesIffRef(t);
  }

  lemma Parts(t: Token)
    requires |t.tail| == 32
    ensures var s := TokenText(t);
      && s[..9] == Prefix(t.env) && s[9..|s| - 33] == t.tenantRef
      && s[|s| - 33] == '_' && s[|s| - 32..] == t.tail
  {
    var head := Prefix(t.env) + t.tenantRef;
    assert head[9..] == t.tenantRef && head[..9] == Prefix(t.env);
    assert TokenText(t)[..|head|] == head;
  }

  lemma TokenSpelled(t: Token)
    ensures TokenText(t) == (if t.env == Live then "zts_live_" else "zts_test_") + t.tenantRef + "_" + t.tail
  {
  }

  lemma EnvsDiffer()
    ensures Prefix(Live) != Prefix(Test)
  {
    assert Prefix(Live)[4] == 'l' && Prefix(Test)[4] == 't';
  }

  /** Main result: an issued token parses, to what it was made of, exactly when its reference is in `[a-z0-9-]+`. */
  lemma ParsesIffRef(t: Token)
    requires IsTail(t.tail)
    ensures ParseToken(TokenText(t)) == if IsRef(t.tenantRef) then Some(t) else None
    ensures ParseToken(TokenText(t)) == Some(t) <==>
      t.tenantRef != "" &&
      forall i :: 0 <= i < |t.tenantRef| ==>
        'a' <= t.tenantRef[i] <= 'z' || '0' <= t.tenantRef[i] <= '9' || t.tenantRef[i] == '-'
  {
    Parts(t);
    EnvsDiffer();
  }

  /** Whatever parses is the text of the token it parses to. */
  lemma ParsedIsToken(s: string)
    requires ParseToken(s).Some?
    ensures TokenText(ParseToken(s).value) == s
    ensures IsRef(ParseToken(s).value.tenantRef) && IsTail(ParseToken(s).value.tail)
  {
    var t := ParseToken(s).value;
    var head := s[..|s| - 33];
    assert head == Prefix(t.env) + t.tenantRef;
    assert s == head + s[|s| - 33..];
    assert s[|s| - 33..] == "_" + t.tail;
  }

  /** Different random bytes, references or environments give different tokens. */
  lemma TokensAreDistinct(one: Token, two: Token)
    requires IsTail(one.tail) && IsTail(two.tail)
    ensures TokenText(one) == TokenText(two) ==> one == two
  {
    Parts(one);
    Parts(two);
    EnvsDiffer();
  }

  // ---- Generated references --------------------------------------------------------------------

  function LowerCase(s: string): (r: string)
    ensures |r| == |s|
  {
    seq(|s|, i requires 0 <= i < |s| => if 'A' <= s[i] <= 'Z' then 'a' + (s[i] - 'A') else s[i])
  }

  /** A generated reference can stand in a token, and different random bytes give different references. */
  method GenerateTenantRef(random: seq<byte>) returns (ref: string)
    requires |random| == 10
    ensures ref == LowerCase(Base32.Encoding(random)) && |ref| == 16 && IsRef(ref)
  {
    var encoded := Base32.Base32Encode(random);
    forall i | 0 <= i < |encoded| ensures IsTailChar(encoded[i]) {
      Base32.EncodingLetters(random, i);
    }
    ref := LowerCase(encoded);
  }

  lemma GeneratedRefsAreDistinct(one: seq<byte>, two: seq<byte>)
    requires LowerCase(Base32.Encoding(one)) == LowerCase(Base32.Encoding(two))
    ensures one == two
  {
    var a, b := Base32.Encoding(one), Base32.Encoding(two);
    assert |a| == |LowerCase(a)| && |b| == |LowerCase(b)|;
    forall i | 0 <= i < |a| ensures a[i] == b[i] {
      Base32.EncodingLetters(one, i);
      Base32.EncodingLetters(two, i);
      assert LowerCase(a)[i] == LowerCase(b)[i];
    }
    Base32.EncodingIsInjective(one, two);
  }
}
