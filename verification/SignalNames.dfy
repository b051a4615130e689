/** Which signal names a caller may emit. */
module SignalNames {

  const RESERVED_PREFIXES := ["interface.", "work.", "approval."]

  predicate AlphaNumeric(c: char) {
    'a' <= c <= 'z' || 'A' <= c <= 'Z' || '0' <= c <= '9'
  }

  predicate NameChar(c: char) {
    AlphaNumeric(c) || c == '.' || c == '_' || c == ':' || c == '-'
  }

  predicate Body(name: string) {
    && 2 <= |name| <= 160
    && AlphaNumeric(name[0])
    && forall k :: 1 <= k < |name| ==> NameChar(name[k])
  }

  /** The regular expression; its `$` also matches before one trailing newline. */
  predicate Matches(name: string) {
    Body(name) || (|name| > 0 && name[|name| - 1] == '\n' && Body(name[..|name| - 1]))
  }

  datatype NameError = BadFormat | Reserved(prefix: string)
  datatype NameCheck = Valid | Invalid(error: NameError)

  method ValidateSignalName(name: string, allowReserved: bool) returns (check: NameCheck)
    ensures check.Valid? <==> Matches(name) && (allowReserved || Open(name))
    ensures check == Invalid(BadFormat) <==> !Matches(name)
    ensures check.Invalid? && check.error.Reserved? ==>
              check.error.prefix in RESERVED_PREFIXES && check.error.prefix <= name
  {
    if !Matches(name) {
      return Invalid(BadFormat);
    }
    if !allowReserved {
      for k := 0 to |RESERVED_PREFIXES|
        invariant forall j :: 0 <= j < k ==> !(RESERVED_PREFIXES[j] <= name)
      {
        if RESERVED_PREFIXES[k] <= name {
          assert RESERVED_PREFIXES[k] in RESERVED_PREFIXES;
          return Invalid(Reserved(RESERVED_PREFIXES[k]));
        }
      }
      assert Open(name);
    }
    check := Valid;
  }

  /** No reserved namespace owns the name. */
  predicate Open(name: string) {
    forall prefix :: prefix in RESERVED_PREFIXES ==> !(prefix <= name)
  }

  /** ASCII letters and digits, by code point. */
  predicate LetterOrDigit(code: int) {
    97 <= code <= 122 || 65 <= code <= 90 || 48 <= code <= 57
  }

  /** The same, or one of ". _ : -". */
  predicate Allowed(code: int) {
    LetterOrDigit(code) || code == 46 || code == 95 || code == 58 || code == 45
  }

  predicate IsName(core: string) {
    && 2 <= |core| <= 160 && LetterOrDigit(core[0] as int)
    && forall k :: 1 <= k < |core| ==> Allowed(core[k] as int)
  }

  /** The form, spelled out: 2 to 160 characters, the first a letter or a digit, the others letters, digits or one of
      ". _ : -"; and possibly a newline after them. */
  lemma FormSpelledOut(name: string)
    ensures Matches(name) <==> IsName(name) || exists core :: IsName(core) && name == core + "\n"
  {
    BodyIsName(name);
    if |name| > 0 {
      BodyIsName(name[..|name| - 1]);
      assert name[|name| - 1] == '\n' ==> name == name[..|name| - 1] + "\n";
    }
    forall core | IsName(core) && name == core + "\n"
      ensures Matches(name)
    {
      assert name[..|name| - 1] == core;
    }
  }

  lemma BodyIsName(core: string)
    ensures Body(core) <==> IsName(core)
  {
    assert forall c: char :: AlphaNumeric(c) <==> LetterOrDigit(c as int);
    assert forall c: char :: NameChar(c) <==> Allowed(c as int);
  }

  /** The reserved namespaces. */
  lemma OpenSpelledOut(name: string)
    ensures Open(name) <==> !("interface." <= name) && !("work." <= name) && !("approval." <= name)
  {
    assert RESERVED_PREFIXES[0] in RESERVED_PREFIXES && RESERVED_PREFIXES[1] in RESERVED_PREFIXES
        && RESERVED_PREFIXES[2] in RESERVED_PREFIXES;
  }
}
