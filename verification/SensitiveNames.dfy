/** Which names of a saved state are hidden (sara_v32_hardening.py), letter by letter: what
    trimming, lower case and the hyphen rule make of a key, which of the resulting names are
    secret, and which only refer to a secret that is kept elsewhere. */
module SensitiveNames {
  import opened Outcomes
  import opened Text
  import opened Redaction

  /** The word list, and the endings that mark a mere reference. */
  predicate Word(w: string) {
    || w == "password" || w == "passwd" || w == "token" || w == "access_token" || w == "refresh_token"
    || w == "authorization" || w == "cookie" || w == "secret" || w == "api_key" || w == "apikey"
    || w == "private_key" || w == "client_secret"
  }

  predicate Reference(s: string) {
    s == "_ref" || s == "_reference" || s == "_id" || s == "_name" || s == "_arn" || s == "_uri"
  }

  /** A secret word, alone, before or after other words, and no reference to one. */
  ghost predicate NamesSecret(k: string) {
    && !(exists p, s :: k == p + s && Reference(s))
    && exists w :: Word(w) && PartOf(w, k)
  }

  /** The word is the name, or one end of it. */
  ghost predicate PartOf(w: string, k: string) {
    k == w || (exists p :: k == p + "_" + w) || (exists r :: k == w + "_" + r)
  }

  /** How a letter of the key is read: capitals (and the Kelvin sign) in lower case, a hyphen as
      an underscore, everything else as it stands. */
  predicate ReadAs(c: char, d: char) {
    if c == '-' then d == '_' else Lowers(c, d)
  }

  /** The key is another spelling of the name `k`. */
  ghost predicate Spells(key: string, k: string) {
    exists i: nat, j: nat :: Trimmed(key, i, j) && |k| == j - i
      && forall n :: 0 <= n < |k| ==> ReadAs(key[i + n], k[n])
  }

  lemma FoldIsReading(c: char, d: char)
    ensures ReadAs(c, d) <==> d == if Fold(c) == '-' then '_' else Fold(c)
  {
    LowersIff(c, d);
  }

  lemma NormalIsSpelled(key: string)
    ensures Spells(key, Normalize(key))
  {
    var k := Normalize(key);
    var i, j := StripTrims(key);
    forall n | 0 <= n < |k| ensures ReadAs(key[i + n], k[n]) { FoldIsReading(key[i + n], k[n]); }
  }

  lemma SpelledIsNormal(key: string, k: string)
    requires Spells(key, k)
    ensures Normalize(key) == k
  {
    var i: nat, j: nat :| Trimmed(key, i, j) && |k| == j - i && forall n :: 0 <= n < |k| ==> ReadAs(key[i + n], k[n]);
    TrimmedIsStrip(key, i, j);
    var s := key[i..j];
    forall n | 0 <= n < |k| ensures Normalize(key)[n] == k[n] {
      assert s[n] == key[i + n];
      FoldIsReading(key[i + n], k[n]);
    }
  }

  /** Normalization finds exactly the name that the key spells. */
  lemma NormalizeIff(key: string, k: string)
    ensures Normalize(key) == k <==> Spells(key, k)
  {
    NormalIsSpelled(key);
    if Spells(key, k) { SpelledIsNormal(key, k); }
  }

  lemma EndsWithIff(k: string, s: string)
    ensures EndsWith(k, s) <==> exists p :: k == p + s
  {
    if EndsWith(k, s) { assert k == k[..|k| - |s|] + s; }
  }

  lemma StartsWithIff(k: string, p: string)
    ensures StartsWith(k, p) <==> exists r :: k == p + r
  {
    if StartsWith(k, p) { assert k == p + k[|p|..]; }
  }

  lemma PartIff(k: string, w: string)
    ensures EndsWith(k, "_" + w) <==> exists p :: k == p + "_" + w
    ensures StartsWith(k, w + "_") <==> exists r :: k == w + "_" + r
  {
    EndsWithIff(k, "_" + w);
    StartsWithIff(k, w + "_");
    forall p: string ensures p + "_" + w == p + ("_" + w) {}
  }

  lemma WordIff(w: string)
    ensures Word(w) <==> w in SENSITIVE
  {
  }

  lemma ReferenceIff(s: string)
    ensures Reference(s) <==> s in REFERENCES
  {
  }

  lemma EndsAsReference(k: string)
    ensures (exists s :: s in REFERENCES && EndsWith(k, s)) <==> exists p, s :: k == p + s && Reference(s)
  {
    if s: string :| s in REFERENCES && EndsWith(k, s) {
      EndsWithIff(k, s);
      ReferenceIff(s);
    }
    if p: string, s: string :| k == p + s && Reference(s) {
      EndsWithIff(k, s);
      ReferenceIff(s);
    }
  }

  predicate Matches(w: string, k: string) {
    k == w || EndsWith(k, "_" + w) || StartsWith(k, w + "_")
  }

  lemma HasWord(k: string)
    ensures (exists w :: w in SENSITIVE && Matches(w, k)) <==> exists w :: Word(w) && PartOf(w, k)
  {
    if w: string :| w in SENSITIVE && Matches(w, k) {
      PartIff(k, w);
      WordIff(w);
      assert Word(w) && PartOf(w, k);
    }
    if w: string :| Word(w) && PartOf(w, k) {
      PartIff(k, w);
      WordIff(w);
      assert w in SENSITIVE && Matches(w, k);
    }
  }

  /** Exactly which keys are sensitive. */
  lemma SensitiveIff(key: string, k: string)
    requires Spells(key, k)
    ensures Sensitive(key) <==> NamesSecret(k)
  {
    NormalizeIff(key, k);
    EndsAsReference(k);
    HasWord(k);
    assert (k in SENSITIVE || exists w :: w in SENSITIVE && (EndsWith(k, "_" + w) || StartsWith(k, w + "_"))) <==>
      exists w :: w in SENSITIVE && Matches(w, k);
  }

  lemma OneEntry(secret: Classifier, key: string, value: Json, depth: nat)
    requires SafeText(key, MAX_KEY) == key && depth < MAX_DEPTH
    ensures Redact(secret, Single(key, value), depth) ==
      if secret(key) then Ok(Single(key, REDACTED))
      else if Redact(secret, value, depth + 1).Err? then Err(Redact(secret, value, depth + 1).error)
      else Ok(Single(key, Redact(secret, value, depth + 1).value))
  {
    var e := Entry(key, value);
    assert [e][..0] == [] && RedactEntries(secret, [e][..0], depth) == Ok([]);
    var last := RedactEntry(secret, e, depth);
    assert RedactEntries(secret, [e], depth) == if last.Err? then Err(last.error) else Ok([last.value]);
  }

  /** In a saved state a printable key of at most 256 letters hides its value exactly when the
      name it spells is a secret one; under any other the value's own copy is kept. */
  lemma NamesDecide(key: string, k: string, value: Json, depth: nat)
    requires Spells(key, k) && AllPrintable(key) && |key| <= MAX_KEY && depth < MAX_DEPTH
    ensures Sanitize(Single(key, value), depth) ==
      if NamesSecret(k) then Ok(Single(key, Str("[REDACTED]")))
      else if Sanitize(value, depth + 1).Err? then Err(Sanitize(value, depth + 1).error)
      else Ok(Single(key, Sanitize(value, depth + 1).value))
  {
    SensitiveIff(key, k);
    SafeTextSettles(key, MAX_KEY);
    OneEntry(Sensitive, key, value, depth);
  }

  /** The words themselves, in every spelling, with anything before or after; but not when what
      is named is a reference. */
  lemma WordsAreHidden(w: string, other: string)
    requires Word(w)
    ensures NamesSecret(w) && NamesSecret(other + "_" + w)
    ensures forall s :: Reference(s) ==> !NamesSecret(w + s) && !NamesSecret(w + "_" + other + s)
  {
    NoReference(w);
    NoReferenceBefore(other, w);
    assert PartOf(w, w) && PartOf(w, other + "_" + w);
    forall s | Reference(s) ensures !NamesSecret(w + s) && !NamesSecret(w + "_" + other + s) {
      ReferencesAreNot(w, s);
      ReferencesAreNot(w + "_" + other, s);
    }
  }

  lemma ReferencesAreNot(p: string, s: string)
    requires Reference(s)
    ensures !NamesSecret(p + s)
  {
  }

  /** No word ends like a reference, whatever stands before it. */
  lemma NoReference(w: string)
    requires Word(w)
    ensures !exists p, s :: w == p + s && Reference(s)
  {
    forall p: string, s: string | Reference(s) ensures w != p + s {
      LastLetters(p, s);
      WordEnds(w);
    }
  }

  lemma NoReferenceBefore(other: string, w: string)
    requires Word(w)
    ensures !exists p, s :: other + "_" + w == p + s && Reference(s)
  {
    forall p: string, s: string | Reference(s) ensures other + "_" + w != p + s {
      LastLetters(p, s);
      LastLetters(other + "_", w);
      WordEnds(w);
    }
  }

  /** The last letters of a text are those of its end. */
  lemma LastLetters(p: string, s: string)
    requires |s| >= 3
    ensures var t := p + s; |t| >= 3 && t[|t| - 1] == s[|s| - 1] && t[|t| - 2] == s[|s| - 2] && t[|t| - 3] == s[|s| - 3]
  {
  }

  /** Two letters tell the words from the references. */
  lemma WordEnds(w: string)
    requires Word(w)
    ensures |w| >= 3
    ensures forall s :: Reference(s) ==>
      |s| >= 3 && (w[|w| - 1] != s[|s| - 1] || w[|w| - 2] != s[|s| - 2] || w[|w| - 3] != s[|s| - 3])
  {
  }
}
