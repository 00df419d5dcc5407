/** Which keys of an object hold secrets (packages/server/src/audit/redact.ts:15-76). */
module SensitiveKeys {

  const SECRET_MATERIAL: set<string> := {
    "privatekey", "private_key", "apisecret", "api_secret", "complianceapisecret", "productionapisecret",
    "binarysecuritytoken", "binary_security_token", "compliancebinarysecuritytoken",
    "productionbinarysecuritytoken"
  }

  const CREDENTIALS: set<string> := {
    "apikey", "api_key", "otp", "authorization", "token", "bearer", "masterkey", "master_key", "masterkeys",
    "password", "secret"
  }

  const CERTIFICATES: set<string> := {
    "csr", "csid", "pem", "pemcertificate", "compliancecsidvalue", "productioncsidvalue", "signature",
    "signaturevalue", "signedxml"
  }

  /** `SENSITIVE_KEYS` has the word. */
  predicate IsListed(word: string) {
    word in SECRET_MATERIAL || word in CREDENTIALS || word in CERTIFICATES
  }

  /** `toLowerCase` as far as comparison with an ASCII word can tell: A-Z, and the Kelvin sign. */
  function LowerChar(c: char): char {
    if 'A' <= c <= 'Z' then c - 'A' + 'a' else if c == '\U{212A}' then 'k' else c
  }

  function Lower(s: string): string {
    seq(|s|, i requires 0 <= i < |s| => LowerChar(s[i]))
  }

  /** Case folding of a regular expression with the `i` flag on an ASCII pattern: A-Z only. */
  function FoldChar(c: char): char {
    if 'A' <= c <= 'Z' then c - 'A' + 'a' else c
  }

  predicate MatchesAt(s: string, word: string, at: nat) {
    at + |word| <= |s| && forall i :: 0 <= i < |word| ==> FoldChar(s[at + i]) == word[i]
  }

  predicate MatchesWord(s: string, word: string) {
    exists at :: 0 <= at <= |s| && MatchesAt(s, word, at)
  }

  predicate IsSensitiveKey(key: string) {
    IsListed(Lower(key)) ||
    MatchesWord(key, "secret") || MatchesWord(key, "token") || MatchesWord(key, "password")
  }

  // ---- Which keys are sensitive -----------------------------------------------------------

  /** The key is the word, with any letters of it in upper case. */
  predicate Spells(key: string, word: string) {
    |key| == |word| && forall i :: 0 <= i < |word| ==> key[i] == word[i] || IsUpperOf(key[i], word[i])
  }

  predicate IsUpperOf(upper: char, lower: char) {
    ('A' <= upper <= 'Z' && lower as int == upper as int + 32) || (upper == '\U{212A}' && lower == 'k')
  }

  predicate IsLowerWord(word: string) {
    forall i :: 0 <= i < |word| ==> 'a' <= word[i] <= 'z' || word[i] == '_'
  }

  lemma LowerOf(c: char, l: char)
    requires 'a' <= l <= 'z' || l == '_'
    ensures c == l || IsUpperOf(c, l) <==> LowerChar(c) == l
  {
  }

  lemma SpellsIffLower(key: string, word: string)
    requires IsLowerWord(word)
    ensures Spells(key, word) <==> Lower(key) == word
  {
    if |key| == |word| {
      forall i | 0 <= i < |word| ensures key[i] == word[i] || IsUpperOf(key[i], word[i]) <==> Lower(key)[i] == word[i] {
        LowerOf(key[i], word[i]);
      }
    }
  }

  lemma SecretMaterialIsLower(word: string)
    requires word in SECRET_MATERIAL
    ensures IsLowerWord(word)
  {
  }

  lemma CredentialsAreLower(word: string)
    requires word in CREDENTIALS
    ensures IsLowerWord(word)
  {
  }

  lemma CertificatesAreLower(word: string)
    requires word in CERTIFICATES
    ensures IsLowerWord(word)
  {
  }

  lemma ListedWordsAreLower(word: string)
    requires IsListed(word)
    ensures IsLowerWord(word)
  {
    if word in SECRET_MATERIAL {
      SecretMaterialIsLower(word);
    } else if word in CREDENTIALS {
      CredentialsAreLower(word);
    } else {
      CertificatesAreLower(word);
    }
  }

  /** Every word of the list, with any of its letters in upper case, is a sensitive key. */
  lemma ListedWordsAreSensitive(key: string, word: string)
    requires word in {
      "privatekey", "private_key", "apisecret", "api_secret", "complianceapisecret", "productionapisecret",
      "binarysecuritytoken", "binary_security_token", "compliancebinarysecuritytoken",
      "productionbinarysecuritytoken", "apikey", "api_key", "otp", "authorization", "token", "bearer",
      "masterkey", "master_key", "masterkeys", "csr", "csid", "pem", "pemcertificate",
      "compliancecsidvalue", "productioncsidvalue", "signature", "signaturevalue", "signedxml",
      "password", "secret"}
    requires Spells(key, word)
    ensures IsSensitiveKey(key)
  {
    ListedWordsAreLower(word);
    SpellsIffLower(key, word);
  }

  predicate SpellsAscii(key: string, word: string) {
    Spells(key, word) && forall i :: 0 <= i < |key| ==> key[i] < '\U{80}'
  }

  lemma MatchIsSpelling(a: string, w: string, b: string, word: string)
    requires IsLowerWord(word) && SpellsAscii(w, word)
    ensures MatchesAt(a + w + b, word, |a|)
  {
    forall i | 0 <= i < |word| ensures FoldChar((a + w + b)[|a| + i]) == word[i] {
      assert (a + w + b)[|a| + i] == w[i];
    }
  }

  lemma FallbackWordsAreLower()
    ensures IsLowerWord("secret") && IsLowerWord("token") && IsLowerWord("password")
  {
  }

  /** Whatever is around it, a key that holds one of the three words in any case is sensitive. */
  lemma KeysWithWordsAreSensitive(a: string, w: string, b: string)
    requires SpellsAscii(w, "secret") || SpellsAscii(w, "token") || SpellsAscii(w, "password")
    ensures IsSensitiveKey(a + w + b)
  {
    FallbackWordsAreLower();
    if SpellsAscii(w, "secret") {
      MatchIsSpelling(a, w, b, "secret");
    } else if SpellsAscii(w, "token") {
      MatchIsSpelling(a, w, b, "token");
    } else {
      MatchIsSpelling(a, w, b, "password");
    }
  }

  predicate SpelledAt(key: string, word: string, at: nat) {
    at + |word| <= |key| && SpellsAscii(key[at..at + |word|], word)
  }

  predicate HoldsWord(key: string, word: string) {
    exists at: nat :: at <= |key| && SpelledAt(key, word, at)
  }

  lemma HoldsIffMatches(key: string, word: string)
    requires IsLowerWord(word)
    ensures HoldsWord(key, word) <==> MatchesWord(key, word)
  {
    if at: nat :| at <= |key| && SpelledAt(key, word, at) {
      assert key == key[..at] + key[at..at + |word|] + key[at + |word|..];
      MatchIsSpelling(key[..at], key[at..at + |word|], key[at + |word|..], word);
    } else if at :| 0 <= at <= |key| && MatchesAt(key, word, at) {
      var w := key[at..at + |word|];
      assert forall i :: 0 <= i < |word| ==> w[i] == key[at + i] && FoldChar(key[at + i]) == word[i];
      assert SpelledAt(key, word, at);
    }
  }

  /** Main result on keys: a key is sensitive exactly when it is a listed word, or holds one of three, in any case. */
  lemma SensitiveIffSpelled(key: string)
    ensures IsSensitiveKey(key) <==>
      (exists word :: IsListed(word) && Spells(key, word)) ||
      HoldsWord(key, "secret") || HoldsWord(key, "token") || HoldsWord(key, "password")
  {
    FallbackWordsAreLower();
    HoldsIffMatches(key, "secret");
    HoldsIffMatches(key, "token");
    HoldsIffMatches(key, "password");
    if word :| IsListed(word) && Spells(key, word) {
      ListedWordsAreLower(word);
      SpellsIffLower(key, word);
    } else if IsListed(Lower(key)) {
      ListedWordsAreLower(Lower(key));
      SpellsIffLower(key, Lower(key));
    }
  }

  lemma ReferenceIsNotSensitive()
    ensures !IsSensitiveKey("tenantRef")
  {
    var key := "tenantRef";
    assert |Lower(key)| == 9 && Lower(key)[0] == 't' && Lower(key)[1] == 'e' && Lower(key)[8] == 'f';
    forall at: nat
      ensures !MatchesAt(key, "secret", at) && !MatchesAt(key, "token", at) && !MatchesAt(key, "password", at) {
      assert "secret"[2] == 'c' && "token"[1] == 'o' && "password"[0] == 'p';
    }
  }

  lemma ProtoIsNotSensitive()
    ensures !IsSensitiveKey("__proto__")
  {
    var key := "__proto__";
    assert Lower(key)[0] == '_';
    forall at: nat
      ensures !MatchesAt(key, "secret", at) && !MatchesAt(key, "token", at) && !MatchesAt(key, "password", at) {
      assert "secret"[0] == 's' && "token"[3] == 'e' && "password"[1] == 'a';
    }
  }

  /** Keys that differ only in the case of ASCII letters are treated alike. */
  lemma SensitivityIgnoresCase(a: string, b: string)
    requires |a| == |b| && forall i :: 0 <= i < |a| ==> FoldChar(a[i]) == FoldChar(b[i])
    ensures IsSensitiveKey(a) == IsSensitiveKey(b)
  {
    forall i | 0 <= i < |a| ensures LowerChar(a[i]) == LowerChar(b[i]) {
      assert FoldChar(a[i]) == FoldChar(b[i]);
    }
    assert Lower(a) == Lower(b);
    forall word: string, at: nat ensures MatchesAt(a, word, at) == MatchesAt(b, word, at) {
    }
  }
}
