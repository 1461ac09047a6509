/** The announcement holder (announcements/announcements.py): one record, overwritten
    by `fivemstatus` and read by `get_latest`. The wall clock is an input. */
module AnnouncementsCog {
  import opened Common

  datatype Announcement = Announcement(username: string, avatar: string, message: string)

  /** What `get_latest` returns: the record's three fields and a timestamp. */
  datatype LatestView = LatestView(username: string, avatar: string, message: string, timestamp: string)

  /** A time of day, as `datetime.now()` supplies it. */
  datatype Clock = Clock(hour: nat, minute: nat, second: nat)

  predicate ValidClock(c: Clock)
  {
    c.hour < 24 && c.minute < 60 && c.second < 60
  }

  /** The record the cog starts with. */
  function InitialAnnouncement(): Announcement
  {
    Announcement("Red", "https://api.hexios.top/static/avatar.png", "Server is offline.")
  }

  /** A zero-padded two-digit field, as `%H`, `%M` and `%S` print one. */
  function TwoDigits(n: nat): (r: string)
    requires n < 100
    ensures |r| == 2 && '0' <= r[0] <= '9' && '0' <= r[1] <= '9'
  {
    [DigitChar(n / 10), DigitChar(n % 10)]
  }

  function DigitValue(c: char): nat
    requires '0' <= c <= '9'
  {
    c as int - '0' as int
  }

  /** Reads back a two-digit field. */
  function ParseTwoDigits(s: string): nat
    requires |s| == 2 && '0' <= s[0] <= '9' && '0' <= s[1] <= '9'
  {
    10 * DigitValue(s[0]) + DigitValue(s[1])
  }

  /** `strftime('%H:%M:%S')`. */
  function FormatClock(c: Clock): (r: string)
    requires ValidClock(c)
    ensures |r| == 8 && r[2] == ':' && r[5] == ':'
  {
    TwoDigits(c.hour) + ":" + TwoDigits(c.minute) + ":" + TwoDigits(c.second)
  }

  /** Rendering a time and reading its three fields back gives the same time. */
  lemma FormatClockRoundTrip(c: Clock)
    requires ValidClock(c)
    ensures var r := FormatClock(c);
      && ParseTwoDigits(r[0..2]) == c.hour
      && ParseTwoDigits(r[3..5]) == c.minute
      && ParseTwoDigits(r[6..8]) == c.second
  {
    var r := FormatClock(c);
    assert r[0..2] == TwoDigits(c.hour);
    assert r[3..5] == TwoDigits(c.minute);
    assert r[6..8] == TwoDigits(c.second);
  }

  /** The stored message: the time in brackets, a space, then the status. */
  function StatusMessage(now: Clock, status: string): (r: string)
    requires ValidClock(now)
    ensures |r| == |status| + 11
  {
    "[" + FormatClock(now) + "] " + status
  }

  /** The message can be taken apart again into the time and the status. */
  lemma StatusMessageParts(now: Clock, status: string)
    requires ValidClock(now)
    ensures var m := StatusMessage(now, status);
      m[0] == '[' && m[1..9] == FormatClock(now) && m[9..11] == "] " && m[11..] == status
  {
    var m := StatusMessage(now, status);
    assert m == "[" + FormatClock(now) + "] " + status;
  }

  /** The confirmation `fivemstatus` sends. */
  function StatusReply(status: string): string
  {
    "✅ Status updated: `" + status + "`"
  }

  class Announcements {
    var latest: Announcement

    constructor()
      ensures latest == InitialAnnouncement()
    {
      latest := InitialAnnouncement();
    }

    /** `fivemstatus`: the record is replaced by the author's name, the author's avatar
        URL ("" when the author has none) and the stamped status. */
    method FiveMStatus(displayName: string, avatarUrl: Option<string>, now: Clock, status: string)
      returns (reply: string)
      requires ValidClock(now)
      modifies this
      ensures latest.username == displayName
      ensures latest.avatar == (if avatarUrl.Some? then avatarUrl.value else "")
      ensures latest.message == StatusMessage(now, status)
      ensures reply == StatusReply(status)
    {
      var avatar := if avatarUrl.Some? then avatarUrl.value else "";
      latest := Announcement(displayName, avatar, StatusMessage(now, status));
      reply := StatusReply(status);
    }

    /** `get_latest`: the current record's fields, unchanged, with the given timestamp. */
    method GetLatest(timestamp: string) returns (v: LatestView)
      ensures v.username == latest.username && v.avatar == latest.avatar && v.message == latest.message
      ensures v.timestamp == timestamp
    {
      v := LatestView(latest.username, latest.avatar, latest.message, timestamp);
    }
  }
}
