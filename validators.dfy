/**
 * The format and age rules the handlers apply before writing anything: the phone
 * and specialty patterns, the registration email pattern, lower-casing of emails,
 * the phone mask shown to callers, and calendar dates with the birthday-adjusted age.
 *
 * Patterns are stated as Python's `re.match` applies them: anchored at the start
 * only, with `$` also matching just before one final newline. Character classes
 * are restricted to ASCII.
 */
module Validators {
  import opened Common
  import opened Tables

  predicate IsDigit(c: char)
  {
    '0' <= c <= '9'
  }

  predicate AllDigits(s: string)
  {
    forall i :: 0 <= i < |s| ==> IsDigit(s[i])
  }

  /** `[0-9]{10,15}` covering all of `s`. */
  predicate PhoneDigits(s: string)
  {
    10 <= |s| <= 15 && AllDigits(s)
  }

  /** `\+?[0-9]{10,15}` covering all of `s`. */
  predicate PhoneBody(s: string)
  {
    PhoneDigits(s) || (|s| > 0 && s[0] == '+' && PhoneDigits(s[1..]))
  }

  /** `re.match(r"^\+?[0-9]{10,15}$", s)`: the final `$` also accepts one trailing newline. */
  predicate PhoneMatches(s: string)
  {
    PhoneBody(s) || (|s| > 0 && s[|s| - 1] == '\n' && PhoneBody(s[..|s| - 1]))
  }

  /**
   * The phone pattern accepts exactly 10 to 15 digits, optionally preceded by '+'
   * and optionally followed by one newline.
   */
  lemma PhoneShapes(s: string)
    ensures PhoneMatches(s) <==>
              exists d :: PhoneDigits(d) && (s == d || s == "+" + d || s == d + "\n" || s == "+" + d + "\n")
  {
    if PhoneMatches(s) {
      if PhoneDigits(s) {
        assert s == s;
      } else if |s| > 0 && s[0] == '+' && PhoneDigits(s[1..]) {
        assert s == "+" + s[1..];
      } else {
        var t := s[..|s| - 1];
        assert s == t + "\n";
        if PhoneDigits(t) {
          assert s == t + "\n";
        } else {
          assert t == "+" + t[1..];
          assert s == "+" + t[1..] + "\n";
        }
      }
    }
    if exists d :: PhoneDigits(d) && (s == d || s == "+" + d || s == d + "\n" || s == "+" + d + "\n") {
      var d :| PhoneDigits(d) && (s == d || s == "+" + d || s == d + "\n" || s == "+" + d + "\n");
      if s == "+" + d {
        assert s[1..] == d;
      } else if s == d + "\n" {
        assert s[..|s| - 1] == d;
      } else if s == "+" + d + "\n" {
        assert s[..|s| - 1] == "+" + d;
        assert s[..|s| - 1][1..] == d;
      }
    }
  }

  /** A number with a trailing newline passes the phone check, though the stored value then holds the newline. */
  lemma PhoneAcceptsTrailingNewline()
    ensures PhoneMatches("0123456789\n") && !PhoneBody("0123456789\n")
  {
    assert "0123456789\n"[..10] == "0123456789";
    assert !IsDigit("0123456789\n"[10]);
  }

  /** `\w` restricted to ASCII: letters, digits and underscore. */
  predicate WordChar(c: char)
  {
    'a' <= c <= 'z' || 'A' <= c <= 'Z' || IsDigit(c) || c == '_'
  }

  /** `\s` restricted to ASCII: space, tab, newline, vertical tab, form feed, return, and 0x1c-0x1f. */
  predicate SpaceChar(c: char)
  {
    c == ' ' || 9 <= c as int <= 13 || 28 <= c as int <= 31
  }

  /** `[\w\s-]+` covering all of `s`. */
  predicate SpecialtyRun(s: string)
  {
    |s| > 0 && forall i :: 0 <= i < |s| ==> WordChar(s[i]) || SpaceChar(s[i]) || s[i] == '-'
  }

  /** `re.match(r"^[\w\s-]+$", s)`. */
  predicate SpecialtyMatches(s: string)
  {
    SpecialtyRun(s) || (|s| > 1 && s[|s| - 1] == '\n' && SpecialtyRun(s[..|s| - 1]))
  }

  /** A newline is itself a `\s`, so for this pattern `$` adds nothing: the whole string must be of the class. */
  lemma SpecialtyIsWholeString(s: string)
    ensures SpecialtyMatches(s) <==> SpecialtyRun(s)
  {
    if SpecialtyMatches(s) && !SpecialtyRun(s) {
      var t := s[..|s| - 1];
      forall i | 0 <= i < |s|
        ensures WordChar(s[i]) || SpaceChar(s[i]) || s[i] == '-'
      {
        if i < |s| - 1 {
          assert s[i] == t[i];
        }
      }
    }
  }

  /** No '@' among s[lo..hi]. */
  predicate NoAtIn(s: string, lo: int, hi: int)
    requires 0 <= lo && hi <= |s|
  {
    forall q :: lo <= q < hi ==> s[q] != '@'
  }

  /** The position of the first '@' at or after `lo`, or |s| when there is none. */
  function FirstAtFrom(s: string, lo: nat): (n: nat)
    requires lo <= |s|
    ensures lo <= n <= |s|
    ensures NoAtIn(s, lo, n)
    ensures n < |s| ==> s[n] == '@'
    decreases |s| - lo
  {
    if lo == |s| || s[lo] == '@' then lo else FirstAtFrom(s, lo + 1)
  }

  /** s[..k] reads local@domain.tail, split at i ('@') and j ('.'), each part non-empty and free of '@'. */
  predicate EmailSplit(s: string, i: int, j: int, k: int)
  {
    0 < i && i + 1 < j && j + 1 < k <= |s| && s[i] == '@' && s[j] == '.'
    && NoAtIn(s, 0, i) && NoAtIn(s, i + 1, j) && NoAtIn(s, j + 1, k)
  }

  /**
   * `re.match(r"[^@]+@[^@]+\.[^@]+", s)` as the pattern reads: some prefix of `s`
   * splits as local@domain.tail. Nothing after that prefix is examined, because
   * the pattern has no `$`.
   */
  ghost predicate EmailPattern(s: string)
  {
    exists i, j, k :: EmailSplit(s, i, j, k)
  }

  /**
   * The email check as decided: the first '@' closes a non-empty local part, and
   * the '@'-free run after it holds a '.' with a character on each side.
   */
  predicate EmailMatches(s: string)
  {
    var i := FirstAtFrom(s, 0);
    0 < i < |s| &&
      var e := FirstAtFrom(s, i + 1);
      exists p :: i + 2 <= p < e - 1 && s[p] == '.'
  }

  /** The decision procedure accepts exactly the strings the pattern matches. */
  lemma EmailMatchesPattern(s: string)
    ensures EmailMatches(s) <==> EmailPattern(s)
  {
    var i := FirstAtFrom(s, 0);
    if EmailMatches(s) {
      var e := FirstAtFrom(s, i + 1);
      var p :| i + 2 <= p < e - 1 && s[p] == '.';
      assert EmailSplit(s, i, p, p + 2);
    }
    if EmailPattern(s) {
      var i', j, k :| EmailSplit(s, i', j, k);
      assert i == i';
      var e := FirstAtFrom(s, i + 1);
      assert i + 2 <= j < e - 1;
    }
  }

  /** Whatever follows an accepted address, the result is still accepted: the pattern is not anchored at the end. */
  lemma EmailIgnoresSuffix(s: string, t: string)
    requires EmailMatches(s)
    ensures EmailMatches(s + t)
  {
    EmailMatchesPattern(s);
    var i, j, k :| EmailSplit(s, i, j, k);
    assert EmailSplit(s + t, i, j, k);
    EmailMatchesPattern(s + t);
  }

  /** ASCII lower-casing of one character. */
  function LowerChar(c: char): char
  {
    if 'A' <= c <= 'Z' then (c as int + 32) as char else c
  }

  /** `str.lower()` restricted to ASCII letters. */
  function Lower(s: string): (r: string)
    ensures |r| == |s|
    ensures forall i :: 0 <= i < |s| ==> r[i] == LowerChar(s[i])
  {
    if s == [] then [] else [LowerChar(s[0])] + Lower(s[1..])
  }

  /** Lower-casing twice is lower-casing once. */
  lemma LowerIdempotent(s: string)
    ensures Lower(Lower(s)) == Lower(s)
  {
  }

  /** The masked phone shown where full contact details are withheld: the first four characters, then six stars. */
  function MaskPhone(phone: string): (m: string)
    ensures |m| == (if |phone| < 4 then |phone| else 4) + 6
    ensures m[..|m| - 6] == (if |phone| < 4 then phone else phone[..4])
    ensures m[|m| - 6..] == "******"
  {
    (if |phone| < 4 then phone else phone[..4]) + "******"
  }

  /** The mask reveals nothing beyond the first four characters: phones that share them mask alike. */
  lemma MaskHidesRest(p: string, q: string)
    requires |p| >= 4 && |q| >= 4 && p[..4] == q[..4]
    ensures MaskPhone(p) == MaskPhone(q)
  {
  }

  predicate IsLeap(y: int)
  {
    y % 4 == 0 && (y % 100 != 0 || y % 400 == 0)
  }

  function DaysInMonth(y: int, m: int): int
    requires 1 <= m <= 12
  {
    if m == 2 then (if IsLeap(y) then 29 else 28)
    else if m == 4 || m == 6 || m == 9 || m == 11 then 30
    else 31
  }

  /** A date `strptime` accepts: years 1..9999, a real month and a day inside it. */
  predicate ValidDate(d: Date)
  {
    1 <= d.year <= 9999 && 1 <= d.month <= 12 && 1 <= d.day <= DaysInMonth(d.year, d.month)
  }

  function DaysBeforeMonth(y: int, m: int): int
    requires 1 <= m <= 12
  {
    [0, 31, 59, 90, 120, 151, 181, 212, 243, 273, 304, 334][m - 1]
      + (if m > 2 && IsLeap(y) then 1 else 0)
  }

  /** The proleptic Gregorian day number of `d`, with 0001-01-01 as day 1 (Python's `toordinal`). */
  function Ordinal(d: Date): int
    requires ValidDate(d)
  {
    var y := d.year - 1;
    y * 365 + y / 4 - y / 100 + y / 400 + DaysBeforeMonth(d.year, d.month) + d.day
  }

  /** Days from `a` to `b`, as `(b - a).days`. */
  function DaysBetween(a: Date, b: Date): int
    requires ValidDate(a) && ValidDate(b)
  {
    Ordinal(b) - Ordinal(a)
  }

  /** (month, day) of `a` comes strictly before that of `b` within a year. */
  predicate EarlierInYear(a: Date, b: Date)
  {
    a.month < b.month || (a.month == b.month && a.day < b.day)
  }

  /** `a` is on or before `b`, comparing (year, month, day) in order. */
  predicate NotAfter(a: Date, b: Date)
  {
    a.year < b.year || (a.year == b.year && !EarlierInYear(b, a))
  }

  /** The year difference, less one while this year's birthday is still ahead. */
  function Age(dob: Date, today: Date): int
  {
    today.year - dob.year - (if EarlierInYear(today, dob) then 1 else 0)
  }

  /** The age is the number of birthdays reached: it is at least n exactly when the n-th anniversary has come. */
  lemma AgeCountsAnniversaries(dob: Date, today: Date, n: int)
    ensures Age(dob, today) >= n <==> NotAfter(Date(dob.year + n, dob.month, dob.day), today)
  {
  }

  /** The age rule as written: the date of birth lies at least 365 days back. */
  predicate OldEnoughAsWritten(dob: Date, today: Date)
    requires ValidDate(dob) && ValidDate(today)
  {
    DaysBetween(dob, today) >= 365
  }

  /** The 365-day rule admits a child born 2023-03-01 on 2024-02-29, whose age on that day is 0. */
  lemma DayCountAdmitsAgeZero()
    ensures ValidDate(Date(2023, 3, 1)) && ValidDate(Date(2024, 2, 29))
    ensures OldEnoughAsWritten(Date(2023, 3, 1), Date(2024, 2, 29))
    ensures Age(Date(2023, 3, 1), Date(2024, 2, 29)) == 0
  {
  }

  /** The age rule as intended: the patient is at least one year old by the same age computation. */
  predicate OldEnough(dob: Date, today: Date)
  {
    Age(dob, today) >= 1
  }

  /** The intended rule holds exactly from the first birthday on. */
  lemma OldEnoughFromFirstBirthday(dob: Date, today: Date)
    ensures OldEnough(dob, today) <==> NotAfter(Date(dob.year + 1, dob.month, dob.day), today)
  {
    AgeCountsAnniversaries(dob, today, 1);
  }
}
