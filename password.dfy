/**
  Password strength, as `createPatient` checks it before storing a new
  patient: at least eight characters, and one character each from four
  classes. Each class check is a whole-string match of `.*[class].*`; in
  Java's regular expressions `.` does not match a line terminator, so a
  password holding one fails every class check.
 */
module Password {

  predicate IsUpper(c: char) { 'A' <= c <= 'Z' }

  predicate IsLower(c: char) { 'a' <= c <= 'z' }

  /** `\d` without the Unicode flag: ASCII digits only. */
  predicate IsDigit(c: char) { '0' <= c <= '9' }

  /** The bracketed set of the special-character pattern. */
  const Specials: set<char> := {'!', '@', '#', '$', '%', '^', '&', '*', '(', ')', '_', '+', '-', '=', '[', ']', '{', '}', '|', ';', '\'', ':', '"', ',', '.', '<', '>', '?', '/'}

  predicate IsSpecial(c: char) { c in Specials }

  /** The characters `.` refuses to match. */
  predicate IsLineTerminator(c: char)
  {
    c == '\n' || c == '\r' || c == '\U{0085}' || c == '\U{2028}' || c == '\U{2029}'
  }

  /** Some character of `p` belongs to `cls`. */
  function Contains(p: string, cls: char -> bool): (b: bool)
    ensures b <==> exists i :: 0 <= i < |p| && cls(p[i])
  {
    if p == [] then false
    else if cls(p[0]) then true
    else
      var b := Contains(p[1..], cls);
      assert forall i :: 1 <= i < |p| ==> p[i] == p[1..][i - 1];
      b
  }

  /** `p` matches `.*[cls].*` in full: it splits into a run without line
      terminators, one character of the class, and another such run. */
  function MatchesAnywhere(p: string, cls: char -> bool): (b: bool)
    requires forall c :: cls(c) ==> !IsLineTerminator(c)
    ensures b <==> (forall i :: 0 <= i < |p| ==> !IsLineTerminator(p[i]))
                   && exists i :: 0 <= i < |p| && cls(p[i])
  {
    SplitMatch(p, cls);
    exists k :: 0 <= k < |p| && !Contains(p[..k], IsLineTerminator) && cls(p[k])
                && !Contains(p[k + 1..], IsLineTerminator)
  }

  /** A split around one class character exists exactly when no character is
      a line terminator and some character is in the class. */
  lemma SplitMatch(p: string, cls: char -> bool)
    requires forall c :: cls(c) ==> !IsLineTerminator(c)
    ensures (exists k :: 0 <= k < |p| && !Contains(p[..k], IsLineTerminator) && cls(p[k])
                         && !Contains(p[k + 1..], IsLineTerminator))
            <==> (forall i :: 0 <= i < |p| ==> !IsLineTerminator(p[i]))
                 && exists i :: 0 <= i < |p| && cls(p[i])
  {
    if exists k :: 0 <= k < |p| && !Contains(p[..k], IsLineTerminator) && cls(p[k])
                   && !Contains(p[k + 1..], IsLineTerminator) {
      var k :| 0 <= k < |p| && !Contains(p[..k], IsLineTerminator) && cls(p[k])
               && !Contains(p[k + 1..], IsLineTerminator);
      forall i | 0 <= i < |p| ensures !IsLineTerminator(p[i]) {
        if i < k {
          assert p[..k][i] == p[i];
        } else if i > k {
          assert p[k + 1..][i - k - 1] == p[i];
        }
      }
    }
    if (forall i :: 0 <= i < |p| ==> !IsLineTerminator(p[i])) && exists i :: 0 <= i < |p| && cls(p[i]) {
      var k :| 0 <= k < |p| && cls(p[k]);
      var head, tail := p[..k], p[k + 1..];
      forall j | 0 <= j < |head| ensures !IsLineTerminator(head[j]) {
        assert head[j] == p[j];
      }
      forall j | 0 <= j < |tail| ensures !IsLineTerminator(tail[j]) {
        assert tail[j] == p[k + 1 + j];
      }
    }
  }

  /** None of the four classes holds a line terminator. */
  lemma ClassesHoldNoLineTerminator()
    ensures forall c :: IsUpper(c) || IsLower(c) || IsDigit(c) ==> !IsLineTerminator(c)
    ensures forall c :: IsSpecial(c) ==> !IsLineTerminator(c)
  {
    assert '\n' !in Specials && '\r' !in Specials;
    assert '\U{0085}' !in Specials && '\U{2028}' !in Specials && '\U{2029}' !in Specials;
  }

  function CheckLength(p: string): (b: bool)
    ensures b <==> |p| >= 8
  {
    |p| >= 8
  }

  /** All four class patterns match, stated on the characters of `p`. */
  function CheckCharacterTypes(p: string): (b: bool)
    ensures b <==> && (forall i :: 0 <= i < |p| ==> !IsLineTerminator(p[i]))
                   && (exists i :: 0 <= i < |p| && IsUpper(p[i]))
                   && (exists i :: 0 <= i < |p| && IsLower(p[i]))
                   && (exists i :: 0 <= i < |p| && IsDigit(p[i]))
                   && (exists i :: 0 <= i < |p| && IsSpecial(p[i]))
  {
    ClassesHoldNoLineTerminator();
    MatchesAnywhere(p, IsUpper) && MatchesAnywhere(p, IsLower)
    && MatchesAnywhere(p, IsDigit) && MatchesAnywhere(p, IsSpecial)
  }

  /** The whole rule, stated on the characters of `p`. */
  function ValidatePassword(p: string): (b: bool)
    ensures b <==> && |p| >= 8
                   && (forall i :: 0 <= i < |p| ==> !IsLineTerminator(p[i]))
                   && (exists i :: 0 <= i < |p| && IsUpper(p[i]))
                   && (exists i :: 0 <= i < |p| && IsLower(p[i]))
                   && (exists i :: 0 <= i < |p| && IsDigit(p[i]))
                   && (exists i :: 0 <= i < |p| && IsSpecial(p[i]))
  {
    CheckLength(p) && CheckCharacterTypes(p)
  }

  /** Worked cases: a password with all four classes passes; one a character
      short, or one holding a line break, does not. */
  lemma ExampleAccepted()
    ensures ValidatePassword("Vaccine#19")
  {
    var p := "Vaccine#19";
    assert IsUpper(p[0]) && IsLower(p[1]) && IsDigit(p[8]);
    assert IsSpecial(p[7]);
    forall i | 0 <= i < |p| ensures !IsLineTerminator(p[i]) {
      assert 35 <= p[i] as int <= 122;
    }
  }

  lemma ExampleTooShort()
    ensures !ValidatePassword("Vac#19x")
  {
  }

  lemma ExampleLineBreak()
    ensures !ValidatePassword("Vaccine#19\U{2028}")
  {
    var p := "Vaccine#19\U{2028}";
    assert IsLineTerminator(p[10]);
  }
}
