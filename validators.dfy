/**
  The two string validators of the user schema (src/models/user.model.js:92-101).

  Each regular expression is modelled twice: as a matcher that follows the
  expression's own structure (a greedy character-class run, then the literal
  that must follow it), and as a declarative shape built from character
  classes, which is what the expression is meant to accept. The lemmas prove
  that the two agree on every string. Character classes are the ASCII ones of
  a JavaScript regular expression without the `u` flag; every accepted string
  is ASCII, so counting characters or UTF-16 code units gives the same lengths.
*/
module Validators {

  /** The character classes the two expressions and Split use. */
  datatype CharClass =
    | LocalPart     // [\w-\.]   (the `-` between a class escape and `\.` is a literal)
    | Label         // [\w-]
    | Lower         // [a-z]
    | Upper         // [A-Z]
    | Digit         // \d
    | Special       // [@$!%*?&]
    | PasswordChar  // [A-Za-z\d@$!%*?&]
    | Except(c: char)  // any character but c
  {
    predicate Contains(ch: char) {
      match this
      case LocalPart => IsWordChar(ch) || ch == '-' || ch == '.'
      case Label => IsWordChar(ch) || ch == '-'
      case Lower => 'a' <= ch <= 'z'
      case Upper => 'A' <= ch <= 'Z'
      case Digit => '0' <= ch <= '9'
      case Special => ch in "@$!%*?&"
      case PasswordChar => ('a' <= ch <= 'z') || ('A' <= ch <= 'Z') || ('0' <= ch <= '9') || ch in "@$!%*?&"
      case Except(c) => ch != c
    }
  }

  /** `\w` without the `u` flag: ASCII letters, digits and `_`. */
  predicate IsWordChar(ch: char) {
    ('a' <= ch <= 'z') || ('A' <= ch <= 'Z') || ('0' <= ch <= '9') || ch == '_'
  }

  /** How far a greedy `[cls]*` advances from the start of `s`: the longest prefix inside `cls`. */
  function Span(s: string, cls: CharClass): (k: nat)
    ensures k <= |s|
    ensures forall i | 0 <= i < k :: cls.Contains(s[i])
    ensures k < |s| ==> !cls.Contains(s[k])
  {
    if s == [] || !cls.Contains(s[0]) then 0 else 1 + Span(s[1..], cls)
  }

  /** A prefix of length `j` that lies inside `cls` and cannot be extended is the greedy span. */
  lemma SpanIsMaximalPrefix(s: string, cls: CharClass, j: nat)
    requires j <= |s|
    requires forall i | 0 <= i < j :: cls.Contains(s[i])
    requires j < |s| ==> !cls.Contains(s[j])
    ensures Span(s, cls) == j
  {
  }

  /** The characters a JavaScript `.` does not match without the `s` flag. */
  predicate IsLineTerminator(ch: char) {
    ch == '\n' || ch == '\r' || ch == '\U{2028}' || ch == '\U{2029}'
  }

  /** No line terminator occurs among the first `i` characters of `s`. */
  predicate NoLineBreakBefore(s: string, i: nat)
    requires i <= |s|
  {
    forall j | 0 <= j < i :: !IsLineTerminator(s[j])
  }

  /** `(?=.*[cls])` at the start of `s`: a character in `cls` occurs before the first line terminator. */
  function HasSome(s: string, cls: CharClass): (r: bool)
    ensures r <==> exists i | 0 <= i < |s| :: cls.Contains(s[i]) && NoLineBreakBefore(s, i)
  {
    if s == [] then false
    else if cls.Contains(s[0]) then
      assert NoLineBreakBefore(s, 0);
      true
    else if IsLineTerminator(s[0]) then false
    else
      var rest := HasSome(s[1..], cls);
      assert forall i | 1 <= i <= |s| :: NoLineBreakBefore(s, i) <==> NoLineBreakBefore(s[1..], i - 1);
      assert rest ==> exists i | 0 <= i < |s| :: cls.Contains(s[i]) && NoLineBreakBefore(s, i);
      rest
  }

  /** On a string without line terminators the look-ahead only asks for some character of the class. */
  lemma HasSomeWithoutLineBreaks(s: string, cls: CharClass)
    requires forall i | 0 <= i < |s| :: !IsLineTerminator(s[i])
    ensures HasSome(s, cls) <==> exists i | 0 <= i < |s| :: cls.Contains(s[i])
  {
    if i :| 0 <= i < |s| && cls.Contains(s[i]) {
      assert NoLineBreakBefore(s, i);
    }
  }

  /** The look-ahead does not see past a line break: a lower-case letter after a newline is missed. */
  lemma LookAheadStopsAtLineBreak()
    ensures !HasSome("\na", Lower) && HasSome("a\n", Lower)
  {
    assert !Lower.Contains('\n');
    assert IsLineTerminator('\n');
    assert ("\na")[0] == '\n';
  }

  // ---------------------------------------------------------------------------
  // validatePassword: /^(?=.*[a-z])(?=.*[A-Z])(?=.*\d)(?=.*[@$!%*?&])[A-Za-z\d@$!%*?&]{8,}$/

  /** The character-class statement of what validatePassword accepts. */
  predicate PasswordShape(password: string) {
    && |password| >= 8
    && (forall i | 0 <= i < |password| :: PasswordChar.Contains(password[i]))
    && (exists i | 0 <= i < |password| :: Lower.Contains(password[i]))
    && (exists i | 0 <= i < |password| :: Upper.Contains(password[i]))
    && (exists i | 0 <= i < |password| :: Digit.Contains(password[i]))
    && (exists i | 0 <= i < |password| :: Special.Contains(password[i]))
  }

  /** The matcher: four look-aheads, then a run of allowed characters that must reach the end. */
  function ValidatePassword(password: string): (ok: bool)
    ensures ok <==> PasswordShape(password)
  {
    var allowed := Span(password, PasswordChar) == |password|;
    if allowed then
      HasSomeWithoutLineBreaks(password, Lower);
      HasSomeWithoutLineBreaks(password, Upper);
      HasSomeWithoutLineBreaks(password, Digit);
      HasSomeWithoutLineBreaks(password, Special);
      && HasSome(password, Lower)
      && HasSome(password, Upper)
      && HasSome(password, Digit)
      && HasSome(password, Special)
      && |password| >= 8
    else false
  }

  /** Any string holding a character outside the allowed class, such as the `/` or `.` of a bcrypt hash, is refused. */
  lemma PasswordRefusesForeignChar(password: string, i: nat)
    requires i < |password| && !PasswordChar.Contains(password[i])
    ensures !ValidatePassword(password)
  {
  }

  // ---------------------------------------------------------------------------
  // validateEmail: /^[\w-\.]+@([\w-]+\.)+[\w-]{2,4}$/

  /** `s` cut at every occurrence of `sep`, as String.prototype.split does. */
  function Split(s: string, sep: char): (parts: seq<string>)
    ensures |parts| >= 1
    decreases |s|
  {
    var k := Span(s, Except(sep));
    if k == |s| then [s] else [s[..k]] + Split(s[k + 1..], sep)
  }

  /** A domain label: one or more characters of `[\w-]`. */
  predicate IsLabel(l: string) {
    |l| > 0 && forall i | 0 <= i < |l| :: Label.Contains(l[i])
  }

  /** Every label is well formed and the last one has 2 to 4 characters. */
  predicate LabelsShape(labels: seq<string>) {
    && |labels| > 0
    && (forall i | 0 <= i < |labels| :: IsLabel(labels[i]))
    && 2 <= |labels[|labels| - 1]| <= 4
  }

  /** A domain of at least two `.`-separated labels, the last of length 2 to 4. */
  predicate DomainShape(domain: string) {
    var labels := Split(domain, '.');
    |labels| >= 2 && LabelsShape(labels)
  }

  /** A non-empty local part over word characters, `-` and `.`. */
  predicate LocalShape(local: string) {
    |local| > 0 && forall i | 0 <= i < |local| :: LocalPart.Contains(local[i])
  }

  /** The character-class statement of what validateEmail accepts: exactly one `@`, a local part, a domain. */
  predicate EmailShape(email: string) {
    var parts := Split(email, '@');
    |parts| == 2 && LocalShape(parts[0]) && DomainShape(parts[1])
  }

  /** After one `label.` group: another group, or the final 2-4 character label and the end of input. */
  predicate MatchGroups(d: string)
    decreases |d|
  {
    var k := Span(d, Label);
    if k == |d| then 2 <= k <= 4
    else 0 < k && d[k] == '.' && MatchGroups(d[k + 1..])
  }

  /** `([\w-]+\.)+[\w-]{2,4}$`: at least one `label.` group, then what MatchGroups accepts. */
  predicate MatchDomain(d: string) {
    var k := Span(d, Label);
    0 < k < |d| && d[k] == '.' && MatchGroups(d[k + 1..])
  }

  /** The matcher: the greedy local part must stop at an `@`, and the rest must be a domain. */
  predicate MatchEmail(email: string) {
    var k := Span(email, LocalPart);
    0 < k < |email| && email[k] == '@' && MatchDomain(email[k + 1..])
  }

  /** The first label of `d` and the split of the rest, when the greedy label run stops at a `.`. */
  lemma SplitAtDot(d: string, k: nat)
    requires k < |d| && d[k] == '.'
    requires forall i | 0 <= i < k :: Label.Contains(d[i])
    ensures Split(d, '.') == [d[..k]] + Split(d[k + 1..], '.')
  {
    SpanIsMaximalPrefix(d, Except('.'), k);
  }

  /** When the label run stops at a character that is neither a label character nor `.`, the first label is malformed. */
  lemma SplitAtForeign(d: string, k: nat)
    requires k < |d| && !Label.Contains(d[k]) && d[k] != '.'
    requires forall i | 0 <= i < k :: Label.Contains(d[i])
    ensures !IsLabel(Split(d, '.')[0])
  {
    var j := Span(d, Except('.'));
    assert Except('.').Contains(d[k]);
    var first := Split(d, '.')[0];
    assert first == (if j == |d| then d else d[..j]);
    assert first[k] == d[k];
  }

  /** Putting a label in front of a list of labels. */
  lemma LabelsShapeCons(first: string, rest: seq<string>)
    requires |rest| > 0
    ensures LabelsShape([first] + rest) <==> IsLabel(first) && LabelsShape(rest)
  {
    var labels := [first] + rest;
    assert labels[|labels| - 1] == rest[|rest| - 1];
    assert labels[0] == first;
    assert forall i | 0 <= i < |rest| :: labels[i + 1] == rest[i];
  }

  /** What MatchGroups accepts holds only label characters and dots. */
  lemma {:induction false} MatchGroupsChars(d: string)
    requires MatchGroups(d)
    ensures forall i | 0 <= i < |d| :: d[i] == '.' || Label.Contains(d[i])
    decreases |d|
  {
    var k := Span(d, Label);
    if k < |d| {
      var rest := d[k + 1..];
      MatchGroupsChars(rest);
      forall i | k < i < |d| ensures d[i] == '.' || Label.Contains(d[i]) {
        assert d[i] == rest[i - k - 1];
      }
    }
  }

  /** A run of label characters that reaches the end is a single label. */
  lemma SplitWhole(d: string)
    requires Span(d, Label) == |d|
    ensures Split(d, '.') == [d]
  {
    SpanIsMaximalPrefix(d, Except('.'), |d|);
  }

  /** When the label run stops at a `.`, the labels are well formed exactly when the first is non-empty and the rest are well formed. */
  lemma LabelsAfterDot(d: string, k: nat)
    requires k == Span(d, Label) && k < |d| && d[k] == '.'
    ensures LabelsShape(Split(d, '.')) <==> 0 < k && LabelsShape(Split(d[k + 1..], '.'))
  {
    SplitAtDot(d, k);
    LabelsShapeCons(d[..k], Split(d[k + 1..], '.'));
  }

  /** The matcher for the groups after the first agrees with the label statement. */
  lemma {:induction false} MatchGroupsIff(d: string)
    ensures MatchGroups(d) <==> LabelsShape(Split(d, '.'))
    decreases |d|
  {
    var k := Span(d, Label);
    if k == |d| {
      SplitWhole(d);
    } else if d[k] == '.' {
      MatchGroupsIff(d[k + 1..]);
      LabelsAfterDot(d, k);
    } else {
      SplitAtForeign(d, k);
    }
  }

  /** The matcher for the domain agrees with the domain statement. */
  lemma MatchDomainIff(d: string)
    ensures MatchDomain(d) <==> DomainShape(d)
  {
    var k := Span(d, Label);
    if k == |d| {
      SplitWhole(d);
    } else if d[k] == '.' {
      MatchGroupsIff(d[k + 1..]);
      LabelsAfterDot(d, k);
      SplitAtDot(d, k);
    } else {
      SplitAtForeign(d, k);
    }
  }

  /** A matched domain holds no `@`. */
  lemma MatchDomainChars(d: string)
    requires MatchDomain(d)
    ensures forall i | 0 <= i < |d| :: d[i] == '.' || Label.Contains(d[i])
  {
    var k := Span(d, Label);
    var rest := d[k + 1..];
    MatchGroupsChars(rest);
    forall i | k < i < |d| ensures d[i] == '.' || Label.Contains(d[i]) {
      assert d[i] == rest[i - k - 1];
    }
  }

  /** A string the matcher accepts splits at its one `@` into a local part and a domain. */
  lemma MatchEmailShape(email: string)
    requires MatchEmail(email)
    ensures EmailShape(email)
  {
    var k := Span(email, LocalPart);
    var domain := email[k + 1..];
    MatchDomainIff(domain);
    MatchDomainChars(domain);
    SpanIsMaximalPrefix(email, Except('@'), k);
    SpanIsMaximalPrefix(domain, Except('@'), |domain|);
    assert Split(domain, '@') == [domain];
    assert Split(email, '@') == [email[..k]] + [domain];
  }

  /** A string of the character-class statement is accepted by the matcher. */
  lemma EmailShapeMatches(email: string)
    requires EmailShape(email)
    ensures MatchEmail(email)
  {
    var j := Span(email, Except('@'));
    var parts := Split(email, '@');
    assert j < |email|;
    var domain := email[j + 1..];
    assert parts == [email[..j]] + Split(domain, '@');
    assert Split(domain, '@') == [domain];
    SpanIsMaximalPrefix(email, LocalPart, j);
    MatchDomainIff(domain);
  }

  /** The matcher accepts exactly the strings of the character-class statement. */
  lemma MatchEmailIff(email: string)
    ensures MatchEmail(email) <==> EmailShape(email)
  {
    if MatchEmail(email) {
      MatchEmailShape(email);
    }
    if EmailShape(email) {
      EmailShapeMatches(email);
    }
  }

  /** validateEmail: the regular expression's verdict, which is the character-class statement. */
  function ValidateEmail(email: string): (ok: bool)
    ensures ok <==> EmailShape(email)
  {
    MatchEmailIff(email);
    MatchEmail(email)
  }
}
