/** The calendar invitation (apps/api/app/ics.py): escaping of TEXT values (section 3.3.11 of
    RFC 5545) and content lines delimited by CRLF (section 3.1 of RFC 5545). */
module Calendar {

  // ----- escaping -----

  /** str.replace of a single character. */
  function Replace(s: string, c: char, sub: string): (replaced: string) {
    if s == [] then [] else (if s[0] == c then sub else [s[0]]) + Replace(s[1..], c, sub)
  }

  function Escape(text: string): (escaped: string) {
    Replace(Replace(Replace(Replace(text, '\\', ['\\', '\\']), ';', ['\\', ';']), ',', ['\\', ',']), '\n', ['\\', 'n'])
  }

  function EscapeChar(c: char): (escaped: string) {
    if c == '\\' || c == ';' || c == ',' then ['\\', c]
    else if c == '\n' then ['\\', 'n']
    else [c]
  }

  function EscapeEach(text: string): (escaped: string) {
    if text == [] then [] else EscapeChar(text[0]) + EscapeEach(text[1..])
  }

  lemma {:induction false} ReplaceConcat(a: string, b: string, c: char, sub: string)
    ensures Replace(a + b, c, sub) == Replace(a, c, sub) + Replace(b, c, sub)
  {
    if a == [] {
      assert a + b == b;
    } else {
      assert (a + b)[1..] == a[1..] + b;
      ReplaceConcat(a[1..], b, c, sub);
    }
  }

  lemma ReplaceShort(x: char, y: char, c: char, sub: string)
    ensures Replace([x], c, sub) == if x == c then sub else [x]
    ensures Replace([x, y], c, sub) == (if x == c then sub else [x]) + (if y == c then sub else [y])
  {
    assert [x][1..] == [] && [x, y][1..] == [y];
    assert Replace([], c, sub) == [];
    assert Replace([y], c, sub) == if y == c then sub else [y] by {
      assert [y][1..] == [];
    }
  }

  lemma EscapeOne(c: char)
    ensures Escape([c]) == EscapeChar(c)
  {
    ReplaceShort(c, c, '\\', ['\\', '\\']);
    ReplaceShort(c, c, ';', ['\\', ';']);
    ReplaceShort(c, c, ',', ['\\', ',']);
    ReplaceShort(c, c, '\n', ['\\', 'n']);
    ReplaceShort('\\', '\\', ';', ['\\', ';']);
    ReplaceShort('\\', '\\', ',', ['\\', ',']);
    ReplaceShort('\\', '\\', '\n', ['\\', 'n']);
    ReplaceShort('\\', ';', ',', ['\\', ',']);
    ReplaceShort('\\', ';', '\n', ['\\', 'n']);
    ReplaceShort('\\', ',', '\n', ['\\', 'n']);
  }

  lemma EscapeConcat(a: string, b: string)
    ensures Escape(a + b) == Escape(a) + Escape(b)
  {
    var a1, b1 := Replace(a, '\\', ['\\', '\\']), Replace(b, '\\', ['\\', '\\']);
    var a2, b2 := Replace(a1, ';', ['\\', ';']), Replace(b1, ';', ['\\', ';']);
    var a3, b3 := Replace(a2, ',', ['\\', ',']), Replace(b2, ',', ['\\', ',']);
    ReplaceConcat(a, b, '\\', ['\\', '\\']);
    ReplaceConcat(a1, b1, ';', ['\\', ';']);
    ReplaceConcat(a2, b2, ',', ['\\', ',']);
    ReplaceConcat(a3, b3, '\n', ['\\', 'n']);
  }

  /** The four replacements in turn are one pass, character by character. */
  lemma {:induction false} EscapeIsOnePass(text: string)
    ensures Escape(text) == EscapeEach(text)
  {
    if text != [] {
      assert text == [text[0]] + text[1..];
      EscapeConcat([text[0]], text[1..]);
      EscapeOne(text[0]);
      EscapeIsOnePass(text[1..]);
    }
  }

  /** Reading a TEXT value: backslash-n is a newline, a backslash before anything else stands for it. */
  function Unescape(s: string): (text: string) {
    if s == [] then []
    else if s[0] == '\\' && |s| > 1 then
      [if s[1] == 'n' || s[1] == 'N' then '\n' else s[1]] + Unescape(s[2..])
    else [s[0]] + Unescape(s[1..])
  }

  lemma {:induction false} UnescapeEach(text: string)
    ensures Unescape(EscapeEach(text)) == text
  {
    if text != [] {
      var c, rest := text[0], EscapeEach(text[1..]);
      UnescapeEach(text[1..]);
      var s := EscapeChar(c) + rest;
      if |EscapeChar(c)| == 2 {
        assert s[2..] == rest;
      } else {
        assert s[1..] == rest;
      }
    }
  }

  /** Every text is read back from its escaped form. */
  lemma EscapeRoundTrip(text: string)
    ensures Unescape(Escape(text)) == text
  {
    EscapeIsOnePass(text);
    UnescapeEach(text);
  }

  // ----- lines -----

  const CR := '\r'
  const LF := '\n'

  function Crlf(): (line: string) {
    [CR, LF]
  }

  predicate NoLf(s: string) {
    forall c | c in s :: c != LF
  }

  predicate HasCrlf(s: string) {
    exists i: nat | i < |s| :: s[i] == CR && i + 1 < |s| && s[i + 1] == LF
  }

  /** The pieces between the CRLFs. */
  function Split(s: string): (pieces: seq<string>)
    ensures |pieces| >= 1
  {
    if |s| < 2 then [s]
    else if s[0] == CR && s[1] == LF then [[]] + Split(s[2..])
    else Grow(s[0], Split(s[1..]))
  }

  /** One more character in front of the first piece. */
  function Grow(c: char, rest: seq<string>): (pieces: seq<string>)
    requires |rest| >= 1
    ensures |pieces| == |rest|
  {
    [[c] + rest[0]] + rest[1..]
  }

  /** "\r\n".join(lines) + "\r\n". */
  function JoinLines(lines: seq<string>): (s: string) {
    if lines == [] then [] else lines[0] + Crlf() + JoinLines(lines[1..])
  }

  function SplitAll(lines: seq<string>): (pieces: seq<string>) {
    if lines == [] then [] else Split(lines[0]) + SplitAll(lines[1..])
  }

  lemma SplitAtOnce(rest: string)
    ensures Split(Crlf() + rest) == [[]] + Split(rest)
  {
    assert (Crlf() + rest)[2..] == rest;
  }

  lemma SplitOneChar(c: char, rest: string)
    ensures Split([c] + Crlf() + rest) == [[c]] + Split(rest)
  {
    var s, tail := [c] + Crlf() + rest, Crlf() + rest;
    SplitAtOnce(rest);
    assert s[1..] == tail && s[1] == CR;
    assert Split(s) == [[c] + Split(tail)[0]] + Split(tail)[1..];
    assert [c] + Split(tail)[0] == [c] && Split(tail)[1..] == Split(rest);
  }

  lemma GrowConcat(c: char, rest: seq<string>, tail: seq<string>)
    requires |rest| >= 1
    ensures Grow(c, rest + tail) == Grow(c, rest) + tail
  {
    assert (rest + tail)[1..] == rest[1..] + tail;
  }

  lemma SplitGrows(s: string)
    requires |s| >= 2 && !(s[0] == CR && s[1] == LF)
    ensures Split(s) == Grow(s[0], Split(s[1..]))
  {
  }

  lemma SplitLonger(s: string, t: string, tail: seq<string>)
    requires |s| >= 2 && |t| >= 2 && !(s[0] == CR && s[1] == LF) && t[0] == s[0] && t[1] == s[1]
    requires Split(t[1..]) == Split(s[1..]) + tail
    ensures Split(t) == Split(s) + tail
  {
    SplitGrows(s);
    SplitGrows(t);
    GrowConcat(s[0], Split(s[1..]), tail);
  }

  /** A line, its CRLF and what follows: the line's own pieces, then the rest's. */
  lemma {:induction false} SplitTerminated(line: string, rest: string)
    ensures Split(line + Crlf() + rest) == Split(line) + Split(rest)
  {
    var s := line + Crlf() + rest;
    if |line| == 0 {
      assert s == Crlf() + rest;
      SplitAtOnce(rest);
    } else if |line| == 1 {
      assert line == [line[0]];
      SplitOneChar(line[0], rest);
    } else if line[0] == CR && line[1] == LF {
      assert s[2..] == line[2..] + Crlf() + rest;
      SplitTerminated(line[2..], rest);
    } else {
      assert s[1..] == line[1..] + Crlf() + rest;
      SplitTerminated(line[1..], rest);
      SplitLonger(line, s, Split(rest));
    }
  }

  lemma {:induction false} SplitJoined(lines: seq<string>)
    ensures Split(JoinLines(lines)) == SplitAll(lines) + [[]]
  {
    if lines != [] {
      SplitTerminated(lines[0], JoinLines(lines[1..]));
      SplitJoined(lines[1..]);
    }
  }

  lemma {:induction false} WholeIffNoCrlf(s: string)
    ensures |Split(s)| == 1 <==> !HasCrlf(s)
    ensures |Split(s)| == 1 ==> Split(s) == [s]
  {
    if |s| >= 2 {
      if s[0] == CR && s[1] == LF {
        assert HasCrlf(s);
      } else {
        WholeIffNoCrlf(s[1..]);
        assert [s[0]] + s[1..] == s;
        if HasCrlf(s) {
          var i: nat :| i < |s| && s[i] == CR && i + 1 < |s| && s[i + 1] == LF;
          assert s[1..][i - 1] == CR && s[1..][i] == LF;
        }
        if HasCrlf(s[1..]) {
          var i: nat :| i < |s[1..]| && s[1..][i] == CR && i + 1 < |s[1..]| && s[1..][i + 1] == LF;
          assert s[i + 1] == CR && s[i + 2] == LF;
        }
      }
    }
  }

  lemma {:induction false} SplitAllCount(lines: seq<string>)
    ensures |SplitAll(lines)| >= |lines|
    ensures |SplitAll(lines)| == |lines| <==> forall line | line in lines :: !HasCrlf(line)
    ensures |SplitAll(lines)| == |lines| ==> SplitAll(lines) == lines
  {
    if lines != [] {
      SplitAllCount(lines[1..]);
      WholeIffNoCrlf(lines[0]);
      assert lines == [lines[0]] + lines[1..];
    }
  }

  // ----- the invitation -----

  /** A UTC time of a four-digit year, as its calendar fields. */
  datatype Time = Time(year: nat, month: nat, day: nat, hour: nat, minute: nat, second: nat)

  function Digit(n: nat): (digit: char) {
    '0' + (n % 10) as char
  }

  function TwoDigits(n: nat): (digits: string) {
    [Digit(n / 10), Digit(n)]
  }

  function Format(t: Time): (stamp: string) {
    TwoDigits(t.year / 100) + TwoDigits(t.year) + TwoDigits(t.month) + TwoDigits(t.day)
    + ['T'] + TwoDigits(t.hour) + TwoDigits(t.minute) + TwoDigits(t.second) + ['Z']
  }

  datatype Invite = Invite(
    uid: string, stamp: Time, start: Time, end: Time, summary: string, description: string, location: string,
    organizer: string, attendee: string)

  function Head(): (lines: seq<string>) {
    ["BEGIN:VCALENDAR", "VERSION:2.0", "PRODID:-//AIVA//Interview Scheduling//EN", "CALSCALE:GREGORIAN",
     "METHOD:REQUEST", "BEGIN:VEVENT"]
  }

  function Tail(): (lines: seq<string>) {
    ["STATUS:TENTATIVE", "END:VEVENT", "END:VCALENDAR"]
  }

  function Property(name: string, value: string): (line: string) {
    name + ":" + value
  }

  function OrganizerLine(address: string): (line: string) {
    "ORGANIZER;CN=" + Escape(address) + ":mailto:" + address
  }

  function AttendeeLine(address: string): (line: string) {
    "ATTENDEE;RSVP=TRUE:mailto:" + address
  }

  function EventLines(e: Invite): (lines: seq<string>) {
    [Property("UID", Escape(e.uid)), Property("DTSTAMP", Format(e.stamp)), Property("DTSTART", Format(e.start)),
     Property("DTEND", Format(e.end)), Property("SUMMARY", Escape(e.summary)),
     Property("DESCRIPTION", Escape(e.description)), Property("LOCATION", Escape(e.location)),
     OrganizerLine(e.organizer), AttendeeLine(e.attendee)]
  }

  function Lines(e: Invite): (lines: seq<string>) {
    Head() + EventLines(e) + Tail()
  }

  function BuildIcs(e: Invite): (ics: string) {
    JoinLines(Lines(e))
  }

  // ----- no line break but the delimiters -----

  lemma EscapedHasNoLf(text: string)
    ensures NoLf(Escape(text))
  {
    EscapeIsOnePass(text);
    EachHasNoLf(text);
  }

  lemma {:induction false} EachHasNoLf(text: string)
    ensures NoLf(EscapeEach(text))
  {
    if text != [] {
      EachHasNoLf(text[1..]);
    }
  }

  lemma NoLfNoCrlf(s: string)
    requires NoLf(s)
    ensures !HasCrlf(s)
  {
    assert forall i | 0 <= i < |s| :: s[i] in s;
  }

  /** Prefixed by text that has no LF and does not end in CR, a string gains and loses no CRLF. */
  lemma CrlfBehind(prefix: string, s: string)
    requires NoLf(prefix) && prefix != [] && prefix[|prefix| - 1] != CR
    ensures HasCrlf(prefix + s) <==> HasCrlf(s)
  {
    var all, n := prefix + s, |prefix|;
    assert forall i | 0 <= i < n :: all[i] == prefix[i] && prefix[i] in prefix;
    if HasCrlf(all) {
      var i: nat :| i < |all| && all[i] == CR && i + 1 < |all| && all[i + 1] == LF;
      assert i >= n;
      assert s[i - n] == CR && s[i - n + 1] == LF;
    }
    if HasCrlf(s) {
      var i: nat :| i < |s| && s[i] == CR && i + 1 < |s| && s[i + 1] == LF;
      assert all[i + n] == CR && all[i + n + 1] == LF;
    }
  }

  lemma ConcatNoLf(a: string, b: string)
    requires NoLf(a) && NoLf(b)
    ensures NoLf(a + b)
  {
  }

  lemma FormatNoLf(t: Time)
    ensures NoLf(Format(t))
  {
    assert forall n: nat :: NoLf(TwoDigits(n));
  }

  lemma HeadNoLf()
    ensures forall line | line in Head() :: NoLf(line)
  {
  }

  lemma TailNoLf()
    ensures forall line | line in Tail() :: NoLf(line)
  {
  }

  lemma NamesNoLf()
    ensures NoLf("UID") && NoLf("DTSTAMP") && NoLf("DTSTART") && NoLf("DTEND") && NoLf("SUMMARY")
    ensures NoLf("DESCRIPTION") && NoLf("LOCATION")
  {
  }

  lemma OrganizerCrlf(address: string)
    ensures HasCrlf(OrganizerLine(address)) <==> HasCrlf(address)
  {
    var name, value, middle := "ORGANIZER;CN=", Escape(address), ":mailto:";
    EscapedHasNoLf(address);
    assert NoLf(name) && NoLf(middle);
    ConcatNoLf(name, value);
    ConcatNoLf(name + value, middle);
    var prefix := name + value + middle;
    assert prefix[|prefix| - 1] == middle[|middle| - 1];
    CrlfBehind(prefix, address);
  }

  lemma AttendeeCrlf(address: string)
    ensures HasCrlf(AttendeeLine(address)) <==> HasCrlf(address)
  {
    var prefix := "ATTENDEE;RSVP=TRUE:mailto:";
    assert NoLf(prefix);
    CrlfBehind(prefix, address);
  }

  lemma PropertiesClean(e: Invite)
    ensures forall i | 0 <= i < 7 :: !HasCrlf(EventLines(e)[i])
  {
    NamesNoLf();
    EscapedHasNoLf(e.uid);
    EscapedHasNoLf(e.summary);
    EscapedHasNoLf(e.description);
    EscapedHasNoLf(e.location);
    FormatNoLf(e.stamp);
    FormatNoLf(e.start);
    FormatNoLf(e.end);
    forall i | 0 <= i < 7 ensures !HasCrlf(EventLines(e)[i]) {
      NoLfNoCrlf(EventLines(e)[i]);
    }
  }

  lemma LinesClean(e: Invite)
    ensures (forall line | line in Lines(e) :: !HasCrlf(line)) <==> !HasCrlf(e.organizer) && !HasCrlf(e.attendee)
  {
    var event := EventLines(e);
    assert Lines(e) == Head() + event + Tail();
    PropertiesClean(e);
    OrganizerCrlf(e.organizer);
    AttendeeCrlf(e.attendee);
    HeadNoLf();
    TailNoLf();
    forall line | line in Head() || line in Tail() ensures !HasCrlf(line) {
      NoLfNoCrlf(line);
    }
    assert event[7] in Lines(e) && event[8] in Lines(e);
    forall line | line in event ensures line == event[7] || line == event[8] || !HasCrlf(line) {
      var i :| 0 <= i < |event| && event[i] == line;
    }
  }

  /** The text of the property on a content line. */
  function ValueOf(name: string, line: string): (text: string)
    requires |name| < |line|
  {
    Unescape(line[|name| + 1..])
  }

  lemma PropertyReads(name: string, text: string)
    ensures ValueOf(name, Property(name, Escape(text))) == text
  {
    assert Property(name, Escape(text))[|name| + 1..] == Escape(text);
    EscapeRoundTrip(text);
  }

  /** Splitting an invitation at CRLF gives back exactly its eighteen content lines, for all texts, if
      and only if neither address contains a CRLF. */
  lemma EighteenLinesIff(e: Invite)
    ensures |Lines(e)| == 18
    ensures Split(BuildIcs(e)) == Lines(e) + [[]] <==> !HasCrlf(e.organizer) && !HasCrlf(e.attendee)
  {
    SplitJoined(Lines(e));
    SplitAllCount(Lines(e));
    LinesClean(e);
  }

  lemma TextLines(e: Invite)
    ensures var lines := Lines(e);
            && |lines| == 18
            && lines[6] == Property("UID", Escape(e.uid)) && lines[10] == Property("SUMMARY", Escape(e.summary))
            && lines[11] == Property("DESCRIPTION", Escape(e.description))
            && lines[12] == Property("LOCATION", Escape(e.location))
  {
  }

  /** And the reader recovers uid, summary, description and location from them. */
  lemma TextsRecovered(e: Invite)
    requires !HasCrlf(e.organizer) && !HasCrlf(e.attendee)
    ensures var lines := Split(BuildIcs(e));
            && |lines| == 19
            && lines[6] == Property("UID", Escape(e.uid)) && ValueOf("UID", lines[6]) == e.uid
            && lines[10] == Property("SUMMARY", Escape(e.summary)) && ValueOf("SUMMARY", lines[10]) == e.summary
            && lines[11] == Property("DESCRIPTION", Escape(e.description))
            && ValueOf("DESCRIPTION", lines[11]) == e.description
            && lines[12] == Property("LOCATION", Escape(e.location)) && ValueOf("LOCATION", lines[12]) == e.location
  {
    EighteenLinesIff(e);
    TextLines(e);
    assert forall i | 0 <= i < 18 :: (Lines(e) + [[]])[i] == Lines(e)[i];
    PropertyReads("UID", e.uid);
    PropertyReads("SUMMARY", e.summary);
    PropertyReads("DESCRIPTION", e.description);
    PropertyReads("LOCATION", e.location);
  }

  // ----- times, addresses and the envelope -----

  /** The number a row of digits stands for. */
  function Value(digits: string): (n: int) {
    if digits == [] then 0
    else 10 * Value(digits[..|digits| - 1]) + digits[|digits| - 1] as int - '0' as int
  }

  predicate FourDigitYear(t: Time) {
    t.year < 10_000 && t.month < 100 && t.day < 100 && t.hour < 100 && t.minute < 100 && t.second < 100
  }

  lemma ValueStep(s: string, c: char)
    ensures Value(s + [c]) == 10 * Value(s) + c as int - '0' as int
  {
    assert (s + [c])[..|s|] == s;
  }

  lemma ValueOfTwo(s: string, c: char, d: char)
    ensures Value(s + [c, d]) == 100 * Value(s) + 10 * (c as int - '0' as int) + (d as int - '0' as int)
  {
    assert s + [c, d] == s + [c] + [d];
    ValueStep(s + [c], d);
    ValueStep(s, c);
  }

  lemma TwoDigitsRead(s: string, n: nat)
    ensures |TwoDigits(n)| == 2 && Value(s + TwoDigits(n)) == 100 * Value(s) + n % 100
  {
    ValueOfTwo(s, Digit(n / 10), Digit(n));
    LastTwo(n);
  }

  lemma LastTwo(n: nat)
    ensures n % 100 == 10 * (n / 10 % 10) + n % 10
  {
    var q, r := n / 100, n % 100;
    assert n / 10 == 10 * q + r / 10;
  }

  /** The basic format of section 3.3.5 of RFC 5545: each field reads back, a T stands between date and time, and a Z
      at the end. */
  predicate Reads(s: string, t: Time) {
    && |s| == 16 && s[8] == 'T' && s[15] == 'Z'
    && Value(s[..4]) == t.year && Value(s[4..6]) == t.month && Value(s[6..8]) == t.day
    && Value(s[9..11]) == t.hour && Value(s[11..13]) == t.minute && Value(s[13..15]) == t.second
  }

  lemma FieldReads(n: nat)
    requires n < 100
    ensures |TwoDigits(n)| == 2 && Value(TwoDigits(n)) == n
  {
    TwoDigitsRead([], n);
    assert [] + TwoDigits(n) == TwoDigits(n);
  }

  lemma YearReads(year: nat)
    requires year < 10_000
    ensures |TwoDigits(year / 100) + TwoDigits(year)| == 4 && Value(TwoDigits(year / 100) + TwoDigits(year)) == year
  {
    FieldReads(year / 100);
    TwoDigitsRead(TwoDigits(year / 100), year);
  }

  lemma FormatReads(t: Time)
    requires FourDigitYear(t)
    ensures Reads(Format(t), t)
  {
    YearReads(t.year);
    FieldReads(t.month);
    FieldReads(t.day);
    FieldReads(t.hour);
    FieldReads(t.minute);
    FieldReads(t.second);
    var s := Format(t);
    assert s[..4] == TwoDigits(t.year / 100) + TwoDigits(t.year);
    assert s[4..6] == TwoDigits(t.month) && s[6..8] == TwoDigits(t.day);
    assert s[9..11] == TwoDigits(t.hour) && s[11..13] == TwoDigits(t.minute) && s[13..15] == TwoDigits(t.second);
  }

  lemma PropertyIs(name: string, value: string)
    ensures var line := Property(name, value);
            && |line| == |name| + 1 + |value| && line[..|name|] == name && line[|name|] == ':'
            && line[|name| + 1..] == value
  {
  }

  /** On the line of this property, the time. */
  predicate TimeOn(line: string, name: string, t: Time) {
    && |line| == |name| + 17 && line[..|name|] == name && line[|name|] == ':' && Reads(line[|name| + 1..], t)
  }

  lemma TimeReads(name: string, t: Time)
    requires FourDigitYear(t)
    ensures TimeOn(Property(name, Format(t)), name, t)
  {
    FormatReads(t);
    PropertyIs(name, Format(t));
  }

  lemma TimeLines(e: Invite)
    ensures var lines := Lines(e);
            && |lines| == 18 && lines[7] == Property("DTSTAMP", Format(e.stamp))
            && lines[8] == Property("DTSTART", Format(e.start)) && lines[9] == Property("DTEND", Format(e.end))
  {
  }

  lemma AddressLines(e: Invite)
    ensures var lines := Lines(e);
            && |lines| == 18
            && lines[13] == "ORGANIZER;CN=" + Escape(e.organizer) + ":mailto:" + e.organizer
            && lines[14] == "ATTENDEE;RSVP=TRUE:mailto:" + e.attendee
  {
  }

  /** The lines an invitation is split into name its times, which read back, and both addresses. */
  lemma TimesRecovered(e: Invite)
    requires !HasCrlf(e.organizer) && !HasCrlf(e.attendee)
    requires FourDigitYear(e.stamp) && FourDigitYear(e.start) && FourDigitYear(e.end)
    ensures var lines := Split(BuildIcs(e));
            && |lines| == 19
            && TimeOn(lines[7], "DTSTAMP", e.stamp) && TimeOn(lines[8], "DTSTART", e.start)
            && TimeOn(lines[9], "DTEND", e.end)
            && lines[13] == "ORGANIZER;CN=" + Escape(e.organizer) + ":mailto:" + e.organizer
            && lines[14] == "ATTENDEE;RSVP=TRUE:mailto:" + e.attendee
  {
    EighteenLinesIff(e);
    TimeLines(e);
    AddressLines(e);
    TimeReads("DTSTAMP", e.stamp);
    TimeReads("DTSTART", e.start);
    TimeReads("DTEND", e.end);
    var lines := Lines(e);
    assert forall i | 0 <= i < 18 :: (lines + [[]])[i] == lines[i];
  }

  /** The fixed lines around the event's. */
  lemma EnvelopeIs(e: Invite)
    ensures var lines := Lines(e);
            && |lines| == 18 && lines[0] == "BEGIN:VCALENDAR" && lines[1] == "VERSION:2.0"
            && lines[3] == "CALSCALE:GREGORIAN" && lines[4] == "METHOD:REQUEST" && lines[5] == "BEGIN:VEVENT"
            && lines[15] == "STATUS:TENTATIVE" && lines[16] == "END:VEVENT" && lines[17] == "END:VCALENDAR"
  {
  }
}
