/** Validator.cpp: the checks that decide whether the server answers a command at all. */
module Validator {
  import opened Base

  predicate IsDigit(c: char) { '0' <= c <= '9' }

  predicate IsWord(c: char) { 'a' <= c <= 'z' || 'A' <= c <= 'Z' || IsDigit(c) || c == '_' }

  /** ^[a-zA-Z0-9_@+-.]+$ ; "+-." is the range of the characters + , - and . */
  predicate ValidUsername(u: string) {
    u != "" && forall i :: 0 <= i < |u| ==> IsWord(u[i]) || u[i] == '@' || '+' <= u[i] <= '.'
  }

  /** The comma among them, since "-" makes a range. */
  lemma UsernameMeans(u: string)
    ensures ValidUsername(u) <==>
            u != "" && forall i :: 0 <= i < |u| ==> 'a' <= u[i] <= 'z' || 'A' <= u[i] <= 'Z' || '0' <= u[i] <= '9' || u[i] in "_@+,-."
  {
    forall i | 0 <= i < |u|
      ensures u[i] in "_@+,-." <==> u[i] == '_' || u[i] == '@' || '+' <= u[i] <= '.'
    {
      assert '+' <= u[i] <= '.' ==> u[i] in ['+', ',', '-', '.'];
      assert "_@+,-."[0] == '_' && "_@+,-."[1] == '@' && "_@+,-."[2] == '+' && "_@+,-."[3] == ',';
      assert "_@+,-."[4] == '-' && "_@+,-."[5] == '.';
    }
  }

  // ------------------------------------------------------- last write times

  function WordEnd(t: string, i: nat): (j: nat)
    requires i <= |t|
    ensures i <= j <= |t|
    decreases |t| - i
  {
    if i < |t| && IsWord(t[i]) then WordEnd(t, i + 1) else i
  }

  predicate Digits(t: string, i: nat, n: nat) {
    i + n <= |t| && forall k :: i <= k < i + n ==> IsDigit(t[k])
  }

  predicate CharAt(t: string, i: nat, c: char) { i < |t| && t[i] == c }

  /** ^\w+, \d{2} \w+ \d{4} \d{2}:\d{2} \w*$ */
  predicate ValidTime(t: Time) {
    var a := WordEnd(t, 0);
    && 0 < a && CharAt(t, a, ',') && CharAt(t, a + 1, ' ')
    && Digits(t, a + 2, 2) && CharAt(t, a + 4, ' ')
    && var b := WordEnd(t, a + 5);
    && a + 5 < b && CharAt(t, b, ' ') && Digits(t, b + 1, 4) && CharAt(t, b + 5, ' ')
    && Digits(t, b + 6, 2) && CharAt(t, b + 8, ':') && Digits(t, b + 9, 2) && CharAt(t, b + 11, ' ')
    && WordEnd(t, b + 12) == |t|
  }

  predicate AllWord(s: string) { forall i :: 0 <= i < |s| ==> IsWord(s[i]) }

  predicate AllDigits(s: string, n: nat) { |s| == n && forall i :: 0 <= i < n ==> IsDigit(s[i]) }

  /** Weekday, day, month, year, hour, minute and zone, as put_time prints them. */
  predicate TimeParts(t: Time, weekday: string, day: string, month: string, year: string,
                      hour: string, minute: string, zone: string) {
    && t == weekday + ", " + day + " " + month + " " + year + " " + hour + ":" + minute + " " + zone
    && weekday != "" && month != "" && AllWord(weekday) && AllWord(month) && AllWord(zone)
    && AllDigits(day, 2) && AllDigits(year, 4) && AllDigits(hour, 2) && AllDigits(minute, 2)
  }

  lemma {:induction false} WordEndIs(t: string, i: nat, j: nat)
    requires i <= j <= |t| && (forall k :: i <= k < j ==> IsWord(t[k])) && (j < |t| ==> !IsWord(t[j]))
    ensures WordEnd(t, i) == j
    decreases |t| - i
  {
    if i < j {
      WordEndIs(t, i + 1, j);
    }
  }

  lemma {:induction false} WordEndMeans(t: string, i: nat)
    requires i <= |t|
    ensures forall k :: i <= k < WordEnd(t, i) ==> IsWord(t[k])
    decreases |t| - i
  {
    if i < |t| && IsWord(t[i]) {
      WordEndMeans(t, i + 1);
    }
  }

  /** Whatever is printed in this form is accepted. */
  lemma PrintedTimeIsValid(t: Time, weekday: string, day: string, month: string, year: string,
                           hour: string, minute: string, zone: string)
    requires TimeParts(t, weekday, day, month, year, hour, minute, zone)
    ensures ValidTime(t)
  {
    hide IsWord, IsDigit, WordEnd, Digits, AllWord, AllDigits;
    Regrouped(t, weekday, day, month, year, hour, minute, zone);
    var clock := year + (" " + (hour + (":" + (minute + (" " + zone)))));
    DateAt(t, weekday, day, month, clock);
    ClockAt(t, |weekday| + 6 + |month|, year, hour, minute, zone);
  }

  lemma DateAt(t: string, weekday: string, day: string, month: string, clock: string)
    requires t[0..] == weekday + (", " + (day + (" " + (month + (" " + clock)))))
    requires AllWord(weekday) && AllWord(month) && AllDigits(day, 2)
    ensures var a := |weekday|;
            var b := a + 5 + |month|;
            && WordEnd(t, 0) == a && CharAt(t, a, ',') && CharAt(t, a + 1, ' ')
            && Digits(t, a + 2, 2) && CharAt(t, a + 4, ' ')
            && a + 5 <= |t| && WordEnd(t, a + 5) == b && CharAt(t, b, ' ') && t[b + 1..] == clock
  {
    hide IsWord, IsDigit, WordEnd, Digits, AllWord, AllDigits;
    WeekdayAt(t, 0, weekday, day + (" " + (month + (" " + clock))));
    DayAt(t, |weekday| + 2, day, month, clock);
  }

  lemma WeekdayAt(t: string, i: nat, weekday: string, rest: string)
    requires i <= |t| && t[i..] == weekday + (", " + rest) && AllWord(weekday)
    ensures var a := i + |weekday|;
            WordEnd(t, i) == a && CharAt(t, a, ',') && CharAt(t, a + 1, ' ') && t[a + 2..] == rest
  {
    hide IsWord, IsDigit, WordEnd, AllWord;
    NoWords();
    PieceAt(t, i, weekday, ", " + rest);
    WordAt(t, i, weekday, ", " + rest);
    PieceAt(t, i + |weekday|, ", ", rest);
  }

  lemma DayAt(t: string, i: nat, day: string, month: string, clock: string)
    requires i <= |t| && t[i..] == day + (" " + (month + (" " + clock))) && AllWord(month) && AllDigits(day, 2)
    ensures Digits(t, i, 2) && CharAt(t, i + 2, ' ') && i + 3 <= |t|
    ensures var b := i + 3 + |month|; WordEnd(t, i + 3) == b && CharAt(t, b, ' ') && t[b + 1..] == clock
  {
    hide IsWord, IsDigit, WordEnd, Digits, AllWord;
    NoWords();
    PieceAt(t, i, day, " " + (month + (" " + clock)));
    PieceAt(t, i + 2, " ", month + (" " + clock));
    PieceAt(t, i + 3, month, " " + clock);
    PieceAt(t, i + 3 + |month|, " ", clock);
    WordAt(t, i + 3, month, " " + clock);
    DigitsAt(t, i, day);
  }

  lemma ClockAt(t: string, i: nat, year: string, hour: string, minute: string, zone: string)
    requires i <= |t| && t[i..] == year + (" " + (hour + (":" + (minute + (" " + zone)))))
    requires AllDigits(year, 4) && AllDigits(hour, 2) && AllDigits(minute, 2) && AllWord(zone)
    ensures Digits(t, i, 4) && CharAt(t, i + 4, ' ') && Digits(t, i + 5, 2) && CharAt(t, i + 7, ':') && Digits(t, i + 8, 2)
    ensures CharAt(t, i + 10, ' ') && i + 11 <= |t| && WordEnd(t, i + 11) == |t|
  {
    hide IsWord, IsDigit, WordEnd, Digits, AllWord;
    var r5 := minute + (" " + zone);
    PieceAt(t, i, year, " " + (hour + (":" + r5)));
    PieceAt(t, i + 4, " ", hour + (":" + r5));
    PieceAt(t, i + 5, hour, ":" + r5);
    PieceAt(t, i + 7, ":", r5);
    PieceAt(t, i + 8, minute, " " + zone);
    PieceAt(t, i + 10, " ", zone);
    assert zone + "" == zone;
    WordAt(t, i + 11, zone, "");
    DigitsAt(t, i, year);
    DigitsAt(t, i + 5, hour);
    DigitsAt(t, i + 8, minute);
  }

  lemma Regrouped(t: Time, weekday: string, day: string, month: string, year: string,
                  hour: string, minute: string, zone: string)
    requires TimeParts(t, weekday, day, month, year, hour, minute, zone)
    ensures t[0..] == weekday + (", " + (day + (" " + (month + (" " + (year + (" " + (hour + (":" + (minute + (" " + zone)))))))))))
  {
  }

  lemma PieceAt(t: string, i: nat, x: string, rest: string)
    requires i <= |t| && t[i..] == x + rest
    ensures i + |x| <= |t| && t[i + |x|..] == rest && t[i..i + |x|] == x
    ensures x != "" ==> t[i] == x[0]
    ensures |x| > 1 ==> t[i + 1] == x[1]
  {
    assert t[i + |x|..] == t[i..][|x|..];
    assert t[i..i + |x|] == t[i..][..|x|];
    assert x != "" ==> t[i] == t[i..i + |x|][0];
    assert |x| > 1 ==> t[i + 1] == t[i..i + |x|][1];
  }

  lemma WordAt(t: string, i: nat, w: string, rest: string)
    requires i <= |t| && t[i..] == w + rest && AllWord(w) && (rest != "" ==> !IsWord(rest[0]))
    ensures WordEnd(t, i) == i + |w|
  {
    hide IsWord, WordEnd, AllWord;
    WordFirst(w, rest);
    WordShift(t, i);
  }

  lemma DigitsAt(t: string, i: nat, d: string)
    requires i + |d| <= |t| && t[i..i + |d|] == d && AllDigits(d, |d|)
    ensures Digits(t, i, |d|)
  {
    hide IsDigit;
    assert forall k :: i <= k < i + |d| ==> t[k] == d[k - i];
  }

  lemma WordFirst(w: string, rest: string)
    requires AllWord(w) && (rest != "" ==> !IsWord(rest[0]))
    ensures WordEnd(w + rest, 0) == |w|
  {
    hide IsWord, WordEnd;
    WordEndIs(w + rest, 0, |w|);
  }

  lemma {:induction false} WordShiftBy(t: string, i: nat, j: nat)
    requires i + j <= |t|
    ensures WordEnd(t, i + j) == i + WordEnd(t[i..], j)
    decreases |t| - j
  {
    if i + j < |t| && IsWord(t[i + j]) {
      WordShiftBy(t, i, j + 1);
    }
  }

  lemma WordShift(t: string, i: nat)
    requires i <= |t|
    ensures WordEnd(t, i) == i + WordEnd(t[i..], 0)
  {
    WordShiftBy(t, i, 0);
  }

  lemma NoWords()
    ensures !IsWord(',') && !IsWord(' ')
  {
  }

  /** And nothing else. */
  lemma ValidTimeHasParts(t: Time)
    requires ValidTime(t)
    ensures exists weekday, day, month, year, hour, minute, zone :: TimeParts(t, weekday, day, month, year, hour, minute, zone)
  {
    hide IsWord, IsDigit, WordEnd, Digits, AllDigits;
    var a := WordEnd(t, 0);
    var b := WordEnd(t, a + 5);
    WordEndMeans(t, 0);
    WordEndMeans(t, a + 5);
    WordEndMeans(t, b + 12);
    JoinedParts(t, a, b);
    DigitsOf(t, a + 2, 2);
    DigitsOf(t, b + 1, 4);
    DigitsOf(t, b + 6, 2);
    DigitsOf(t, b + 9, 2);
    assert TimeParts(t, t[..a], t[a + 2..a + 4], t[a + 5..b], t[b + 1..b + 5], t[b + 6..b + 8], t[b + 9..b + 11], t[b + 12..]);
  }

  lemma DigitsOf(t: string, i: nat, n: nat)
    requires Digits(t, i, n)
    ensures AllDigits(t[i..i + n], n)
  {
    hide IsDigit;
  }

  lemma JoinedParts(t: string, a: nat, b: nat)
    requires a + 5 <= b && b + 12 <= |t| && t[a] == ',' && t[a + 1] == ' ' && t[a + 4] == ' ' && t[b] == ' '
    requires t[b + 5] == ' ' && t[b + 8] == ':' && t[b + 11] == ' '
    ensures t == t[..a] + ", " + t[a + 2..a + 4] + " " + t[a + 5..b] + " " + t[b + 1..b + 5] + " "
                 + t[b + 6..b + 8] + ":" + t[b + 9..b + 11] + " " + t[b + 12..]
  {
    var weekday, day, month, year := t[..a], t[a + 2..a + 4], t[a + 5..b], t[b + 1..b + 5];
    var hour, minute, zone := t[b + 6..b + 8], t[b + 9..b + 11], t[b + 12..];
    CutOut(t, 0, weekday, ',', ' ', day, ' ');
    CutClock(t, b + 6, hour, minute, zone);
    CutYear(t, a + 5, month, year);
    assert t == t[..a + 5] + t[a + 5..b + 6] + t[b + 6..];
    Assembled(weekday, day, month, year, hour, minute, zone);
  }

  lemma CutOut(t: string, i: nat, w: string, c1: char, c2: char, d: string, c3: char)
    requires i + |w| + |d| + 3 <= |t| && t[i..i + |w|] == w && t[i + |w|] == c1 && t[i + |w| + 1] == c2
    requires t[i + |w| + 2..i + |w| + 2 + |d|] == d && t[i + |w| + 2 + |d|] == c3
    ensures t[i..i + |w| + |d| + 3] == w + [c1, c2] + d + [c3]
  {
  }

  lemma CutYear(t: string, i: nat, month: string, year: string)
    requires i + |month| + 6 <= |t| && t[i..i + |month|] == month && t[i + |month|] == ' ' && |year| == 4
    requires t[i + |month| + 1..i + |month| + 5] == year && t[i + |month| + 5] == ' '
    ensures t[i..i + |month| + 6] == month + " " + year + " "
  {
  }

  lemma CutClock(t: string, i: nat, hour: string, minute: string, zone: string)
    requires i + 6 <= |t| && t[i..i + 2] == hour && t[i + 2] == ':' && t[i + 3..i + 5] == minute
    requires t[i + 5] == ' ' && t[i + 6..] == zone
    ensures t[i..] == hour + ":" + minute + " " + zone
  {
  }

  lemma Assembled(weekday: string, day: string, month: string, year: string, hour: string, minute: string, zone: string)
    ensures (weekday + ", " + day + " ") + (month + " " + year + " ") + (hour + ":" + minute + " " + zone)
            == weekday + ", " + day + " " + month + " " + year + " " + hour + ":" + minute + " " + zone
  {
  }

  // ------------------------------------------------------------------ paths

  /** Every backslash becomes a slash. */
  function Slashed(p: Path): (q: Path)
    ensures |q| == |p|
    ensures forall i :: 0 <= i < |p| ==> q[i] == if p[i] == '\\' then '/' else p[i]
  {
    seq(|p|, i requires 0 <= i < |p| => if p[i] == '\\' then '/' else p[i])
  }

  /** One trailing slash, and only one, is dropped. */
  function Trimmed(p: Path): Path {
    if p != "" && p[|p| - 1] == '/' then p[..|p| - 1] else p
  }

  predicate Forbidden(c: char) { c in "<>\"|?*:" }

  predicate Clean(p: Path, from: nat) { forall i :: from <= i < |p| ==> !Forbidden(p[i]) }

  /** ^((\w:)|/)[^<>"|?*:]*$ */
  predicate PathSyntax(p: Path) {
    (p != "" && p[0] == '/' && Clean(p, 1)) || (|p| >= 2 && IsWord(p[0]) && p[1] == ':' && Clean(p, 2))
  }

  function ValidatePath(p: Path): Option<Path> {
    var q := Trimmed(Slashed(p));
    if PathSyntax(q) then Some(q) else None
  }

  /** What is accepted, and what comes out: with slashes for backslashes and without the last separator, the path
      must be absolute, and nothing in it may be a character that a file name cannot have. */
  lemma AcceptedPathIs(p: Path, q: Path)
    ensures ValidatePath(p) == Some(q) <==>
            && |q| == |p| - (if p != "" && p[|p| - 1] in {'/', '\\'} then 1 else 0)
            && (forall i :: 0 <= i < |q| ==> q[i] == if p[i] == '\\' then '/' else p[i])
            && q != "" && (q[0] == '/' || (|q| > 1 && IsWord(q[0]) && q[1] == ':'))
            && forall i :: (if q[0] == '/' then 1 else 2) <= i < |q| ==> q[i] !in {'<', '>', '"', '|', '?', '*', ':'}
  {
    var s := Trimmed(Slashed(p));
    if |q| == |s| && forall i :: 0 <= i < |q| ==> q[i] == s[i] {
      assert q == s;
    }
    forall i | 0 <= i < |s| ensures s[i] == if p[i] == '\\' then '/' else p[i] {}
    forall i | 0 <= i < |s| ensures Forbidden(s[i]) <==> s[i] in {'<', '>', '"', '|', '?', '*', ':'} {
      ForbiddenAre(s[i]);
    }
  }

  lemma ForbiddenAre(c: char)
    ensures Forbidden(c) <==> c in {'<', '>', '"', '|', '?', '*', ':'}
  {
    var f := "<>\"|?*:";
    assert f[0] == '<' && f[1] == '>' && f[2] == '"' && f[3] == '|' && f[4] == '?' && f[5] == '*' && f[6] == ':';
  }

  /** The paths that validation accepts and leaves alone. */
  lemma {:induction false} FixedPoints(p: Path)
    ensures ValidatePath(p) == Some(p) <==> PathSyntax(p) && p[|p| - 1] != '/' && '\\' !in p
  {
    if '\\' in p {
      var i :| 0 <= i < |p| && p[i] == '\\';
      assert Slashed(p)[i] != p[i];
    } else {
      assert Slashed(p) == p;
    }
  }

  /** Validating twice is validating once, except for an input that ends in two slashes or backslashes. */
  lemma ValidationIsStable(p: Path, q: Path)
    requires ValidatePath(p) == Some(q)
    ensures ValidatePath(q) == Some(q) <==> !(|p| >= 2 && p[|p| - 1] in "/\\" && p[|p| - 2] in "/\\")
  {
    FixedPoints(q);
    var s := Slashed(p);
    forall i | 0 <= i < |q| ensures q[i] != '\\' {
      assert q[i] == s[i];
    }
    if |s| >= 2 && s[|s| - 1] == '/' {
      assert q[|q| - 1] == s[|s| - 2];
    }
  }
}
