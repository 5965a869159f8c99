// The credential rules shared by the backend (backend/routes/userRoutes.js)
// and the frontend (frontend/src/systemRoutes.js): the strong-password
// regular expression and the email-shape regular expression.
module Passwords {
  import Text

  /** `[@$!%*?&]`. */
  predicate IsSpecial(c: char) {
    c == '@' || c == '$' || c == '!' || c == '%' || c == '*' || c == '?' || c == '&'
  }

  /** `/^(?=.*[a-z])(?=.*[A-Z])(?=.*\d)(?=.*[@$!%*?&]).{8,}$/`: `.` matches no line terminator, so none may occur. */
  predicate IsStrong(p: string) {
    && |p| >= 8
    && (forall k :: 0 <= k < |p| ==> !Text.IsLineTerminator(p[k]))
    && Text.HasChar(p, Text.IsAsciiLower)
    && Text.HasChar(p, Text.IsAsciiUpper)
    && Text.HasChar(p, Text.IsAsciiDigit)
    && Text.HasChar(p, IsSpecial)
  }

  /** `[^\s@]`. */
  predicate IsPlain(c: char) {
    !Text.IsSpace(c) && c != '@'
  }

  /** `/^[^\s@]+@[^\s@]+\.[^\s@]+$/`: one `@` after a non-empty part, then a `.` with at least one character on each side, and no white space anywhere. */
  predicate EmailShape(e: string) {
    exists i, j :: 0 < i < |e| && i + 1 < j < |e| - 1 && e[i] == '@' && e[j] == '.' &&
      forall k :: 0 <= k < |e| ==> (k == i || IsPlain(e[k]))
  }

  /** The shape excludes white space and a second `@`, and needs a dot after the `@`. */
  lemma EmailShapeMeans(e: string)
    ensures EmailShape(e) ==> forall k :: 0 <= k < |e| ==> !Text.IsSpace(e[k])
    ensures EmailShape(e) ==> |e| >= 5 && IsPlain(e[0]) && IsPlain(e[|e| - 1])
    ensures EmailShape(e) ==> forall k, l :: 0 <= k < l < |e| && e[k] == '@' ==> e[l] != '@'
  {
  }

  lemma EmailShapeExamples()
    ensures EmailShape("a@b.c")
    ensures !EmailShape("a@b")
    ensures !EmailShape("@b.c")
    ensures !EmailShape("a b@c.d")
    ensures !EmailShape("a@@b.c")
  {
    assert "a@b.c"[1] == '@' && "a@b.c"[3] == '.';
    assert "a b@c.d"[1] == ' ';
    assert "a@@b.c"[1] == '@' && "a@@b.c"[2] == '@';
  }

  lemma StrongExamples()
    ensures IsStrong("Passw0rd!")
    ensures !IsStrong("Passw0rd")
    ensures !IsStrong("Pa0!")
  {
    var p := "Passw0rd!";
    assert Text.IsAsciiLower(p[1]) && Text.IsAsciiUpper(p[0]) && Text.IsAsciiDigit(p[5]) && IsSpecial(p[8]);
  }
}
