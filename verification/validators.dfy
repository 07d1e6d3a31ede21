/**
  The input validators of the back end: the e-mail pattern, the password
  strength rules, and the basic markup sanitiser.
 */
module Validators {
  import opened Wrappers
  import opened JsText

  // ---------------------------------------------------------------------
  // E-mail: `^[^\s@]+@[^\s@]+\.[^\s@]+$`
  // ---------------------------------------------------------------------

  /** A character of the class `[^\s@]`. */
  predicate Plain(c: char) {
    !IsSpace(c) && c != '@'
  }

  /** A string matched by `[^\s@]+`. */
  predicate PlainRun(s: string) {
    |s| > 0 && forall i :: 0 <= i < |s| ==> Plain(s[i])
  }

  /** The pattern, read as a regular expression: some split of `s` into a
      local part, `@`, a domain head, `.`, and a domain tail, each part a
      non-empty run of plain characters. */
  ghost predicate EmailPattern(s: string) {
    exists i, j :: 0 < i < j < |s| - 1 && s[i] == '@' && s[j] == '.'
      && PlainRun(s[..i]) && PlainRun(s[i + 1..j]) && PlainRun(s[j + 1..])
  }

  /** Index of the first `@` in `s`, or `|s|` when there is none. */
  function FirstAt(s: string): (i: nat)
    ensures i <= |s|
    ensures forall k :: 0 <= k < i ==> s[k] != '@'
    ensures i < |s| ==> s[i] == '@'
  {
    if |s| == 0 || s[0] == '@' then 0 else 1 + FirstAt(s[1..])
  }

  /** `d` has a `.` with at least one character on either side of it. */
  predicate InnerDot(d: string) {
    exists k :: 0 < k < |d| - 1 && d[k] == '.'
  }

  /** `isValidEmail`: no white space anywhere, exactly one `@`, not first,
      and a dot strictly inside the domain after it. */
  predicate IsValidEmail(s: string) {
    var i := FirstAt(s);
    && NoSpace(s)
    && 0 < i < |s|
    && (forall k :: i < k < |s| ==> s[k] != '@')
    && InnerDot(s[i + 1..])
  }

  /** The scan above accepts exactly the strings the pattern matches. */
  lemma EmailMatchesPattern(s: string)
    ensures IsValidEmail(s) <==> EmailPattern(s)
  {
    if IsValidEmail(s) {
      ValidEmailHasPattern(s);
    }
    if EmailPattern(s) {
      var i, j :| 0 < i < j < |s| - 1 && s[i] == '@' && s[j] == '.'
        && PlainRun(s[..i]) && PlainRun(s[i + 1..j]) && PlainRun(s[j + 1..]);
      PatternIsValidEmail(s, i, j);
    }
  }

  lemma ValidEmailHasPattern(s: string)
    requires IsValidEmail(s)
    ensures EmailPattern(s)
  {
    var i := FirstAt(s);
    var d := s[i + 1..];
    var k :| 0 < k < |d| - 1 && d[k] == '.';
    var j := i + 1 + k;
    assert s[j] == '.';
    var a, b, c := s[..i], s[i + 1..j], s[j + 1..];
    assert forall m :: 0 <= m < |a| ==> a[m] == s[m];
    assert forall m :: 0 <= m < |b| ==> b[m] == s[i + 1 + m];
    assert forall m :: 0 <= m < |c| ==> c[m] == s[j + 1 + m];
    assert PlainRun(a) && PlainRun(b) && PlainRun(c);
  }

  lemma PatternIsValidEmail(s: string, i: nat, j: nat)
    requires 0 < i < j < |s| - 1 && s[i] == '@' && s[j] == '.'
    requires PlainRun(s[..i]) && PlainRun(s[i + 1..j]) && PlainRun(s[j + 1..])
    ensures IsValidEmail(s)
  {
    var a, b, c := s[..i], s[i + 1..j], s[j + 1..];
    assert forall k :: 0 <= k < i ==> s[k] == a[k];
    assert forall k :: i < k < j ==> s[k] == b[k - i - 1];
    assert forall k :: j < k < |s| ==> s[k] == c[k - j - 1];
    FirstAtIs(s, i);
    assert forall k :: 0 <= k < |s| ==> Plain(s[k]) || k == i || k == j;
    assert s[i + 1..][j - i - 1] == '.';
  }

  lemma {:induction false} FirstAtIs(s: string, i: nat)
    requires i < |s| && s[i] == '@'
    requires forall k :: 0 <= k < i ==> s[k] != '@'
    ensures FirstAt(s) == i
    decreases i
  {
    if i > 0 {
      FirstAtIs(s[1..], i - 1);
    }
  }

  // ---------------------------------------------------------------------
  // Password strength
  // ---------------------------------------------------------------------

  datatype PasswordCheck = PasswordCheck(valid: bool, message: string)

  const PasswordRequired := "Password is required"
  const PasswordTooShort := "Password must be at least 8 characters long"
  const PasswordTooLong := "Password must be less than 128 characters"
  const PasswordNeedsLetterAndDigit := "Password must contain at least one letter and one number"
  const PasswordOk := "Password is valid"

  const MinPasswordLength := 8
  const MaxPasswordLength := 128

  predicate HasLetter(s: string) {
    exists i :: 0 <= i < |s| && IsAsciiLetter(s[i])
  }

  predicate HasDigit(s: string) {
    exists i :: 0 <= i < |s| && IsDigit(s[i])
  }

  /** A password the rules accept. */
  predicate StrongPassword(pw: string) {
    MinPasswordLength <= |pw| <= MaxPasswordLength && HasLetter(pw) && HasDigit(pw)
  }

  /** `validatePassword`; an absent password is `None`. The message names
      the first rule, in the order required, minimum length, maximum
      length, letter and digit, that the password breaks. */
  function ValidatePassword(pw: Option<string>): (r: PasswordCheck)
    ensures r.valid <==> pw.Some? && StrongPassword(pw.value)
    ensures r.valid <==> r.message == PasswordOk
    ensures pw.None? || pw.value == "" ==> r.message == PasswordRequired
    ensures pw.Some? && 0 < |pw.value| < MinPasswordLength ==> r.message == PasswordTooShort
    ensures pw.Some? && |pw.value| > MaxPasswordLength ==> r.message == PasswordTooLong
    ensures pw.Some? && MinPasswordLength <= |pw.value| <= MaxPasswordLength
      ==> (r.message == PasswordNeedsLetterAndDigit <==> !r.valid)
  {
    if pw.None? || pw.value == "" then PasswordCheck(false, PasswordRequired)
    else if |pw.value| < MinPasswordLength then PasswordCheck(false, PasswordTooShort)
    else if |pw.value| > MaxPasswordLength then PasswordCheck(false, PasswordTooLong)
    else if !HasLetter(pw.value) || !HasDigit(pw.value) then PasswordCheck(false, PasswordNeedsLetterAndDigit)
    else PasswordCheck(true, PasswordOk)
  }

  // ---------------------------------------------------------------------
  // Sanitiser
  // ---------------------------------------------------------------------

  /** The characters `\b` counts as word characters. */
  predicate IsWordChar(c: char) {
    IsAsciiLetter(c) || IsDigit(c) || c == '_'
  }

  /** Case folding of the `i` flag without the `u` flag: ASCII only. */
  function AsciiLower(c: char): (d: char)
    ensures 'A' <= c <= 'Z' ==> d as int == c as int + 32
    ensures !('A' <= c <= 'Z') ==> d == c
  {
    if 'A' <= c <= 'Z' then (c as int + 32) as char else c
  }

  /** `s` holds `word` (written in lower case) at `p`, ignoring ASCII case. */
  predicate WordAt(s: string, p: nat, word: string) {
    p + |word| <= |s| && forall k :: 0 <= k < |word| ==> AsciiLower(s[p + k]) == word[k]
  }

  /** `<script\b` at `p`. */
  predicate OpensScript(s: string, p: nat) {
    WordAt(s, p, "<script") && (p + 7 == |s| || !IsWordChar(s[p + 7]))
  }

  /** `</script>` at `q`. */
  predicate ClosesScript(s: string, q: nat) {
    WordAt(s, q, "</script>")
  }

  /** The first `</script>` at or after `k`. */
  function FindClose(s: string, k: nat): (r: Option<nat>)
    ensures r.Some? ==> k <= r.value && r.value + 9 <= |s| && ClosesScript(s, r.value)
    ensures r.Some? ==> forall q :: k <= q < r.value ==> !ClosesScript(s, q)
    ensures r.None? ==> forall q :: k <= q ==> !ClosesScript(s, q)
    decreases |s| - k
  {
    if k + 9 > |s| then None
    else if ClosesScript(s, k) then Some(k)
    else FindClose(s, k + 1)
  }

  /** Where the script pattern's match starting at `p` ends, if it matches
      there: the opening tag, then everything up to and including the first
      closing tag. Every `<` inside is one that does not start a closing
      tag, so the pattern's body can consume it. */
  function ScriptEnd(s: string, p: nat): (e: Option<nat>)
    ensures e.Some? ==> p + 16 <= e.value <= |s| && OpensScript(s, p) && ClosesScript(s, e.value - 9)
  {
    if OpensScript(s, p) then
      match FindClose(s, p + 7)
      case Some(q) => Some(q + 9)
      case None => None
    else None
  }

  /** Characters of a later suffix are characters of an earlier one. */
  lemma SuffixMembers(s: string, p: nat, e: nat, t: string)
    requires p <= e <= |s|
    requires forall i :: 0 <= i < |t| ==> t[i] in s[e..]
    ensures forall i :: 0 <= i < |t| ==> t[i] in s[p..]
  {
    forall i | 0 <= i < |t| ensures t[i] in s[p..] {
      var j :| 0 <= j < |s[e..]| && s[e..][j] == t[i];
      assert s[p..][e - p + j] == t[i];
    }
  }

  /** The global, leftmost replacement of the script pattern by `""`,
      from position `p` on. */
  function StripFrom(s: string, p: nat): (r: string)
    requires p <= |s|
    ensures forall i :: 0 <= i < |r| ==> r[i] in s[p..]
    ensures (forall i :: p <= i < |s| ==> s[i] != '<') ==> r == s[p..]
    decreases |s| - p
  {
    if p == |s| then []
    else match ScriptEnd(s, p)
      case Some(e) =>
        assert AsciiLower(s[p + 0]) == "<script"[0];
        var t := StripFrom(s, e);
        SuffixMembers(s, p, e, t);
        t
      case None =>
        var t := StripFrom(s, p + 1);
        SuffixMembers(s, p, p + 1, t);
        assert s[p..] == [s[p]] + s[p + 1..];
        [s[p]] + t
  }

  function StripScripts(s: string): (r: string)
    ensures forall i :: 0 <= i < |r| ==> r[i] in s
    ensures (forall i :: 0 <= i < |s| ==> s[i] != '<') ==> r == s
  {
    assert s[0..] == s;
    StripFrom(s, 0)
  }

  /** A position holding no `<` starts neither tag. */
  lemma NoTagAt(s: string, q: nat)
    requires q < |s| && s[q] != '<'
    ensures !OpensScript(s, q) && !ClosesScript(s, q)
  {
    assert AsciiLower(s[q + 0]) != '<';
    assert "<script"[0] == '<' && "</script>"[0] == '<';
  }

  /** Where a script match starts, the whole match is skipped. */
  lemma StripSkipsScript(s: string, p: nat)
    requires p < |s| && ScriptEnd(s, p).Some?
    ensures StripFrom(s, p) == StripFrom(s, ScriptEnd(s, p).value)
  {
  }

  /** A character other than `<` is kept. */
  lemma StripKeeps(s: string, p: nat)
    requires p < |s| && s[p] != '<'
    ensures StripFrom(s, p) == [s[p]] + StripFrom(s, p + 1)
  {
    NoTagAt(s, p);
  }

  lemma ConsSlice(s: string, p: nat, m: nat, u: string)
    requires p < m <= |s|
    ensures [s[p]] + (s[p + 1..m] + u) == s[p..m] + u
  {
    assert s[p..m] == [s[p]] + s[p + 1..m];
  }

  /** A stretch without `<` is copied as it is. */
  lemma {:induction false} StripPlainStretch(s: string, p: nat, m: nat)
    requires p <= m <= |s|
    requires forall i :: p <= i < m ==> s[i] != '<'
    ensures StripFrom(s, p) == s[p..m] + StripFrom(s, m)
    decreases m - p
  {
    if p < m {
      StripKeeps(s, p);
      StripPlainStretch(s, p + 1, m);
      ConsSlice(s, p, m, StripFrom(s, m));
    } else {
      assert s[p..m] == [];
    }
  }

  /** The first closing tag after a stretch without `<` is the one at its end. */
  lemma FindCloseAfterStretch(s: string, k: nat, m: nat)
    requires k <= m && m + 9 <= |s| && ClosesScript(s, m)
    requires forall q :: k <= q < m ==> s[q] != '<'
    ensures FindClose(s, k) == Some(m)
  {
    forall q | k <= q < m ensures !ClosesScript(s, q) {
      NoTagAt(s, q);
    }
  }

  /** An opening tag at `p`, a stretch without `<`, then a closing tag at
      `m`: the pattern's match from `p` ends just after that closing tag. */
  lemma ScriptAt(s: string, p: nat, m: nat)
    requires p + 8 <= m && m + 9 <= |s|
    requires s[p..p + 8] == "<script>" && s[m..m + 9] == "</script>"
    requires forall q :: p + 8 <= q < m ==> s[q] != '<'
    ensures ScriptEnd(s, p) == Some(m + 9)
  {
    forall k | 0 <= k < 7 ensures AsciiLower(s[p + k]) == "<script"[k] {
      assert s[p + k] == s[p..p + 8][k];
    }
    assert s[p + 7] == s[p..p + 8][7];
    assert OpensScript(s, p);
    forall k | 0 <= k < 9 ensures AsciiLower(s[m + k]) == "</script>"[k] {
      assert s[m + k] == s[m..m + 9][k];
    }
    assert ClosesScript(s, m);
    FindCloseAfterStretch(s, p + 7, m);
  }

  /** Where the parts of `a + "<script>" + x + "</script>" + b` lie. */
  lemma ScriptLayout(a: string, x: string, b: string)
    ensures var s := a + "<script>" + x + "</script>" + b;
      var p := |a|;
      var m := p + 8 + |x|;
      && |s| == m + 9 + |b|
      && s[..p] == a && s[p..p + 8] == "<script>" && s[p + 8..m] == x
      && s[m..m + 9] == "</script>" && s[m + 9..] == b
  {
    var s := a + "<script>" + x + "</script>" + b;
    var p := |a|;
    var m := p + 8 + |x|;
    assert s == (((a + "<script>") + x) + "</script>") + b;
  }

  /** A script element between two runs of plain text is removed whole,
      along with its content. */
  lemma ScriptRemoved(a: string, x: string, b: string)
    requires forall i :: 0 <= i < |a| ==> a[i] != '<'
    requires forall i :: 0 <= i < |x| ==> x[i] != '<'
    requires forall i :: 0 <= i < |b| ==> b[i] != '<'
    ensures StripScripts(a + "<script>" + x + "</script>" + b) == a + b
  {
    var s := a + "<script>" + x + "</script>" + b;
    var p := |a|;
    var m := p + 8 + |x|;
    var e := m + 9;
    ScriptLayout(a, x, b);
    assert forall i :: 0 <= i < p ==> s[i] != '<' by {
      forall i | 0 <= i < p ensures s[i] != '<' {
        assert s[i] == s[..p][i];
      }
    }
    assert forall q :: p + 8 <= q < m ==> s[q] != '<' by {
      forall q | p + 8 <= q < m ensures s[q] != '<' {
        assert s[q] == s[p + 8..m][q - p - 8];
      }
    }
    assert forall i :: e <= i < |s| ==> s[i] != '<' by {
      forall i | e <= i < |s| ensures s[i] != '<' {
        assert s[i] == s[e..][i - e];
      }
    }
    ScriptAt(s, p, m);
    StripPlainStretch(s, 0, p);
    assert s[0..] == s && s[0..p] == a;
    StripSkipsScript(s, p);
    assert StripFrom(s, e) == b;
  }

  /** The inline script of a stored comment is dropped with its content. */
  lemma ScriptRemovedExample()
    ensures StripScripts("a<script>x</script>b") == "ab"
  {
    assert "a<script>x</script>b" == "a" + "<script>" + "x" + "</script>" + "b";
    ScriptRemoved("a", "x", "b");
  }

  /** `replace(/[<>]/g, '')`. */
  function RemoveAngles(s: string): (r: string)
    ensures forall i :: 0 <= i < |r| ==> r[i] != '<' && r[i] != '>'
    ensures forall i :: 0 <= i < |r| ==> r[i] in s
    ensures (forall i :: 0 <= i < |s| ==> s[i] != '<' && s[i] != '>') ==> r == s
    ensures |r| <= |s|
  {
    if |s| == 0 then []
    else
      var t := RemoveAngles(s[1..]);
      assert forall i :: 0 <= i < |t| ==> t[i] in s by {
        forall i | 0 <= i < |t| ensures t[i] in s {
          var j :| 0 <= j < |s[1..]| && s[1..][j] == t[i];
          assert s[j + 1] == t[i];
        }
      }
      if s[0] == '<' || s[0] == '>' then t else [s[0]] + t
  }

  /** No `<` or `>` anywhere in `s`. */
  predicate NoAngles(s: string) {
    forall i :: 0 <= i < |s| ==> s[i] != '<' && s[i] != '>'
  }

  /** `sanitizeString` on a string. */
  function Sanitize(s: string): (r: string)
    ensures NoAngles(r) && Trimmed(r)
    ensures forall i :: 0 <= i < |r| ==> r[i] in s
  {
    var u := StripScripts(s);
    var t := RemoveAngles(u);
    var r := Trim(t);
    SanitizeSteps(s, u, t, r);
    r
  }

  /** The three passes of the sanitiser keep only input characters, and the
      last two leave no angle bracket and no surrounding white space. */
  lemma SanitizeSteps(s: string, u: string, t: string, r: string)
    requires u == StripScripts(s) && t == RemoveAngles(u) && r == Trim(t)
    ensures NoAngles(r) && Trimmed(r)
    ensures forall i :: 0 <= i < |r| ==> r[i] in s
  {
    var a := LeadingSpaces(t);
    forall i | 0 <= i < |r| ensures r[i] in s && r[i] != '<' && r[i] != '>' {
      var x := t[a + i];
      assert r[i] == x;
      assert x in u;
      var k :| 0 <= k < |u| && u[k] == x;
      assert u[k] in s;
    }
  }

  /** Sanitising twice gives what sanitising once gives. */
  lemma SanitizeIdempotent(s: string)
    ensures Sanitize(Sanitize(s)) == Sanitize(s)
  {
    var r := Sanitize(s);
    assert StripScripts(r) == r;
    assert RemoveAngles(r) == r;
    TrimOfTrimmed(r);
  }

  /** Text without angle brackets is only trimmed. */
  lemma SanitizePlainText(s: string)
    requires NoAngles(s)
    ensures Sanitize(s) == Trim(s)
  {
    assert StripScripts(s) == s;
  }

  /** `sanitizeString` on any value: anything but a string comes back as is. */
  function SanitizeValue(v: JsValue): (r: JsValue)
    ensures !v.Str? ==> r == v
    ensures v.Str? ==> r.Str? && NoAngles(r.s) && Trimmed(r.s)
    ensures v.Str? && NoAngles(v.s) ==> r == Str(Trim(v.s))
  {
    if v.Str? then
      if NoAngles(v.s) then SanitizePlainText(v.s); Str(Sanitize(v.s)) else Str(Sanitize(v.s))
    else v
  }
}
