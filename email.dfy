/**
 * The e-mail check shared by the sign-up and log-in pages: both test the
 * same regular expression `^[^\s@]+@[^\s@]+\.[^\s@]+$`, so both use the one
 * predicate below.
 */
module Email {
  import opened Wrappers
  import opened Text

  /** A run of the class `[^\s@]`: no whitespace and no '@'. */
  predicate Plain(t: string)
  {
    forall k :: 0 <= k < |t| ==> !IsWhitespace(t[k]) && t[k] != '@'
  }

  /**
   * The string splits as `a@b.c` at '@' index `i` and '.' index `j`, with
   * `a`, `b` and `c` non-empty runs of `[^\s@]`.
   */
  predicate PartsAt(s: string, i: int, j: int)
  {
    && 0 < i < |s| && i + 1 < j < |s| - 1
    && s[i] == '@' && s[j] == '.' && Plain(s[..i]) && Plain(s[i + 1..j]) && Plain(s[j + 1..])
  }

  /**
   * The regular expression matches: some split of the string fits (the
   * `+` may backtrack, so any dot of the part after '@' may be the one
   * the pattern uses).
   */
  predicate ValidateEmail(s: string)
  {
    exists i, j | 0 < i < |s| && i + 1 < j < |s| - 1 :: PartsAt(s, i, j)
  }

  /**
   * The same language, said with characters: no whitespace, exactly one
   * '@' and not at the start, and after it a '.' with text on both sides.
   */
  ghost predicate EmailShape(s: string)
  {
    && (forall k :: 0 <= k < |s| ==> !IsWhitespace(s[k]))
    && exists i :: 0 < i < |s| && s[i] == '@'
         && (forall k :: 0 <= k < |s| && s[k] == '@' ==> k == i)
         && (exists j :: i + 1 < j < |s| - 1 && s[j] == '.')
  }

  lemma ValidateEmailIsShape(s: string)
    ensures ValidateEmail(s) <==> EmailShape(s)
  {
    if ValidateEmail(s) {
      var i, j :| 0 < i < |s| && i + 1 < j < |s| - 1 && PartsAt(s, i, j);
      forall k | 0 <= k < |s| ensures !IsWhitespace(s[k]) && (s[k] == '@' ==> k == i) {
        if k < i {
          assert s[k] == s[..i][k];
        } else if i < k < j {
          assert s[k] == s[i + 1..j][k - i - 1];
        } else if j < k {
          assert s[k] == s[j + 1..][k - j - 1];
        }
      }
    }
    if EmailShape(s) {
      var i :| 0 < i < |s| && s[i] == '@'
        && (forall k :: 0 <= k < |s| && s[k] == '@' ==> k == i)
        && (exists j :: i + 1 < j < |s| - 1 && s[j] == '.');
      var j :| i + 1 < j < |s| - 1 && s[j] == '.';
      assert PartsAt(s, i, j);
    }
  }

  /** A string that passes has no whitespace to trim, and is not empty. */
  lemma ValidEmailIsTrimmed(s: string)
    requires ValidateEmail(s)
    ensures s != [] && Trim(s) == s
  {
    ValidateEmailIsShape(s);
    TrimUnchanged(s);
  }

  /** A sample: a plain address passes. */
  lemma SampleAddressPasses()
    ensures ValidateEmail("ab@c.de")
  {
    var s := "ab@c.de";
    assert s[..2] == "ab" && s[3..4] == "c" && s[5..] == "de";
    assert Plain(s[..2]) && Plain(s[3..4]) && Plain(s[5..]);
    assert PartsAt(s, 2, 4);
  }

  /** A sample: a second '@' after the dot fails. */
  lemma SecondAtFails()
    ensures !ValidateEmail("a@b.c@d")
  {
    var s := "a@b.c@d";
    ValidateEmailIsShape(s);
    assert s[1] == '@' && s[5] == '@';
  }

  const EmailRequired := "Email is required"
  const EmailInvalid := "Please enter a valid email address"

  /**
   * The e-mail rule both forms apply: an empty `email.trim()` (a blank
   * email) is "required", else the pattern is tested on the untrimmed text.
   */
  function EmailError(email: string): Option<string>
  {
    if Trim(email) == "" then Some(EmailRequired)
    else if !ValidateEmail(email) then Some(EmailInvalid)
    else None
  }

  /** A blank email gets "required"; any other email failing the pattern gets the format error; the two never coincide. */
  lemma EmailRules(email: string)
    ensures EmailError(email) == Some(EmailRequired) <==> Trim(email) == ""
    ensures EmailError(email) == Some(EmailInvalid) <==> !IsBlank(email) && !ValidateEmail(email)
    ensures EmailError(email) == None <==> ValidateEmail(email)
  {
    TrimEmptyIffBlank(email);
    if ValidateEmail(email) {
      ValidEmailIsTrimmed(email);
    }
  }
}
