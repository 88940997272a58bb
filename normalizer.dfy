/**
 * The null-aware string helpers that the domain objects call from normalize():
 * `trim` is Java's String.trim (every character at or below U+0020 is stripped
 * from both ends) and `toLowerCase` maps the letters A-Z to a-z; both return
 * null for null.
 */
module Normalizer {
  import opened Nullable

  /** String.trim strips every character whose code is at most U+0020. */
  predicate IsTrimmable(c: char) {
    c <= ' '
  }

  ghost predicate AllTrimmable(s: string) {
    forall i | 0 <= i < |s| :: IsTrimmable(s[i])
  }

  /** Neither end of the string can be trimmed any further. */
  predicate IsTrimmed(s: string) {
    s == [] || (!IsTrimmable(s[0]) && !IsTrimmable(s[|s| - 1]))
  }

  /** Strips the trimmable characters at the front. */
  function TrimStart(s: string): string {
    if s != [] && IsTrimmable(s[0]) then TrimStart(s[1..]) else s
  }

  /** Strips the trimmable characters at the back. */
  function TrimEnd(s: string): string {
    if s != [] && IsTrimmable(s[|s| - 1]) then TrimEnd(s[..|s| - 1]) else s
  }

  /** TrimStart drops a trimmable prefix and stops at a character it must keep. */
  lemma {:induction false} TrimStartDropsPrefix(s: string)
    ensures var r := TrimStart(s);
            && |r| <= |s| && r == s[|s| - |r|..]
            && AllTrimmable(s[..|s| - |r|])
            && (r == [] || !IsTrimmable(r[0]))
  {
    if s != [] && IsTrimmable(s[0]) {
      var t := s[1..];
      TrimStartDropsPrefix(t);
      var r := TrimStart(t);
      assert r == s[|s| - |r|..];
      assert s[..|s| - |r|] == [s[0]] + t[..|t| - |r|];
      var dropped := s[..|s| - |r|];
      assert forall i | 0 <= i < |dropped| :: IsTrimmable(dropped[i]);
    }
  }

  /** TrimEnd drops a trimmable suffix and stops at a character it must keep. */
  lemma {:induction false} TrimEndDropsSuffix(s: string)
    ensures var r := TrimEnd(s);
            && |r| <= |s| && r == s[..|r|]
            && AllTrimmable(s[|r|..])
            && (r == [] || !IsTrimmable(r[|r| - 1]))
  {
    if s != [] && IsTrimmable(s[|s| - 1]) {
      var t := s[..|s| - 1];
      TrimEndDropsSuffix(t);
      var r := TrimEnd(t);
      assert r == s[..|r|];
      assert s[|r|..] == t[|r|..] + [s[|s| - 1]];
      var dropped := s[|r|..];
      assert forall i | 0 <= i < |dropped| :: IsTrimmable(dropped[i]);
    }
  }

  /** Java's String.trim: the infix of `s` left after stripping trimmable margins. */
  function StringTrim(s: string): string {
    TrimEnd(TrimStart(s))
  }

  /** What trim removes is exactly a trimmable prefix and a trimmable suffix: the
      result is the infix of `s` between them, and neither of its ends can be
      trimmed any further. */
  lemma StringTrimInfix(s: string)
    ensures var r := StringTrim(s);
            && IsTrimmed(r)
            && exists i | 0 <= i <= |s| - |r| ::
                 r == s[i..i + |r|] && AllTrimmable(s[..i]) && AllTrimmable(s[i + |r|..])
  {
    var t := TrimStart(s);
    var r := TrimEnd(t);
    TrimStartDropsPrefix(s);
    TrimEndDropsSuffix(t);
    var i := |s| - |t|;
    assert r == s[i..i + |r|];
    assert s[i + |r|..] == t[|r|..];
  }

  /** Trimming a string that is already trimmed changes nothing, and only then. */
  lemma StringTrimFixedPoint(s: string)
    ensures IsTrimmed(StringTrim(s))
    ensures StringTrim(s) == s <==> IsTrimmed(s)
  {
    StringTrimInfix(s);
    if IsTrimmed(s) {
      assert TrimStart(s) == s;
      assert TrimEnd(s) == s;
    }
  }

  predicate IsUpper(c: char) {
    'A' <= c <= 'Z'
  }

  function LowerChar(c: char): (d: char)
    ensures !IsUpper(d)
    ensures !IsUpper(c) ==> d == c
    ensures IsTrimmable(d) <==> IsTrimmable(c)
  {
    if IsUpper(c) then (c as int - 'A' as int + 'a' as int) as char else c
  }

  predicate IsLowerCase(s: string) {
    forall i | 0 <= i < |s| :: !IsUpper(s[i])
  }

  /** Java's String.toLowerCase, restricted to the ASCII letters. */
  function StringToLowerCase(s: string): (r: string)
    ensures |r| == |s|
    ensures forall i | 0 <= i < |s| :: r[i] == LowerChar(s[i])
  {
    if s == [] then [] else [LowerChar(s[0])] + StringToLowerCase(s[1..])
  }

  /** The result of toLowerCase holds no upper-case letter, and lower-case input is kept. */
  lemma StringToLowerCaseFixedPoint(s: string)
    ensures IsLowerCase(StringToLowerCase(s))
    ensures StringToLowerCase(s) == s <==> IsLowerCase(s)
  {
  }

  /** Lower-casing never creates trimmable margins, so it keeps a string trimmed. */
  lemma StringToLowerCaseKeepsTrimmed(s: string)
    requires IsTrimmed(s)
    ensures IsTrimmed(StringToLowerCase(s))
  {
  }

  /** Normalizer.trim: null stays null, anything else is trimmed. */
  function Trim(s: Option<string>): Option<string> {
    match s
    case None => None
    case Some(v) => Some(StringTrim(v))
  }

  /** Normalizer.toLowerCase: null stays null, anything else is lower-cased. */
  function ToLowerCase(s: Option<string>): Option<string> {
    match s
    case None => None
    case Some(v) => Some(StringToLowerCase(v))
  }

  predicate IsTrimmedOrNull(s: Option<string>) {
    s.None? || IsTrimmed(s.value)
  }

  /** What normalize() leaves in an email field: null, or trimmed and lower case. */
  predicate IsNormalizedEmail(s: Option<string>) {
    s.None? || (IsTrimmed(s.value) && IsLowerCase(s.value))
  }

  /** A field is a fixed point of trim exactly when it is null or already trimmed. */
  lemma TrimFixedPoint(s: Option<string>)
    ensures IsTrimmedOrNull(Trim(s))
    ensures Trim(s) == s <==> IsTrimmedOrNull(s)
  {
    if s.Some? {
      StringTrimFixedPoint(s.value);
    }
  }

  /** The email normalization toLowerCase(trim(e)) yields a normalized email, and
      it is a fixed point exactly on normalized emails. */
  lemma EmailFixedPoint(s: Option<string>)
    ensures IsNormalizedEmail(ToLowerCase(Trim(s)))
    ensures ToLowerCase(Trim(s)) == s <==> IsNormalizedEmail(s)
  {
    if s.Some? {
      var t := StringTrim(s.value);
      StringTrimFixedPoint(s.value);
      StringToLowerCaseKeepsTrimmed(t);
      StringToLowerCaseFixedPoint(t);
      if IsNormalizedEmail(s) {
        StringToLowerCaseFixedPoint(s.value);
      }
    }
  }

  /** Normalizing a field twice gives the same value as normalizing it once. */
  lemma NormalizeFieldIdempotent(s: Option<string>)
    ensures Trim(Trim(s)) == Trim(s)
    ensures ToLowerCase(Trim(ToLowerCase(Trim(s)))) == ToLowerCase(Trim(s))
  {
    TrimFixedPoint(s);
    TrimFixedPoint(Trim(s));
    EmailFixedPoint(s);
    EmailFixedPoint(ToLowerCase(Trim(s)));
    var e := ToLowerCase(Trim(s));
    assert IsTrimmedOrNull(e);
  }
}
