/** An active alert as the weather feed reports it, and the filter the poll loop
    applies to the fetched alerts (nwsshutdown/core.py, the comprehension that
    builds `matches`). */
module NwsFilter {
  import opened Common

  /** The `properties` of one feed entry that the plugin reads; `expires` may be absent. */
  datatype Alert = Alert(
    event: string,
    areaDesc: string,
    senderName: string,
    description: string,
    expires: Option<string>)

  /** The alerts whose event name is in the configured list, in the order fetched. */
  function Matches(alerts: seq<Alert>, valid: seq<string>): (r: seq<Alert>)
    ensures |r| <= |alerts|
    ensures forall a :: a in r <==> a in alerts && a.event in valid
  {
    if alerts == [] then []
    else (if alerts[0].event in valid then [alerts[0]] else []) + Matches(alerts[1..], valid)
  }

  /** `r` can be obtained from `s` by deleting elements, keeping the order of the rest. */
  ghost predicate Subsequence<T>(r: seq<T>, s: seq<T>)
    decreases |s|
  {
    r == [] || (s != [] && ((r[0] == s[0] && Subsequence(r[1..], s[1..])) || Subsequence(r, s[1..])))
  }

  /** The match list keeps the fetched order. */
  lemma {:induction false} MatchesIsSubsequence(alerts: seq<Alert>, valid: seq<string>)
    ensures Subsequence(Matches(alerts, valid), alerts)
  {
    if alerts != [] {
      MatchesIsSubsequence(alerts[1..], valid);
      var rest := Matches(alerts[1..], valid);
      if alerts[0].event in valid {
        assert Matches(alerts, valid) == [alerts[0]] + rest;
        assert ([alerts[0]] + rest)[1..] == rest;
      } else {
        assert Matches(alerts, valid) == rest;
      }
    }
  }

  /** Each matching alert is kept as many times as it was fetched; others not at all. */
  lemma {:induction false} MatchesCounts(alerts: seq<Alert>, valid: seq<string>, a: Alert)
    ensures multiset(Matches(alerts, valid))[a] == if a.event in valid then multiset(alerts)[a] else 0
  {
    if alerts != [] {
      MatchesCounts(alerts[1..], valid, a);
      assert alerts == [alerts[0]] + alerts[1..];
    }
  }

  /** The alert the poll loop acts on, `matches[0]`, is the first fetched alert whose
      event is configured; there is one exactly when some fetched alert matches. */
  lemma {:induction false} FirstMatch(alerts: seq<Alert>, valid: seq<string>)
    ensures Matches(alerts, valid) != [] <==> exists i :: 0 <= i < |alerts| && alerts[i].event in valid
    ensures Matches(alerts, valid) != [] ==>
      exists i :: 0 <= i < |alerts| && alerts[i] == Matches(alerts, valid)[0] && alerts[i].event in valid &&
        forall j :: 0 <= j < i ==> alerts[j].event !in valid
  {
    if alerts != [] {
      FirstMatch(alerts[1..], valid);
      if alerts[0].event !in valid && Matches(alerts, valid) != [] {
        var i :| 0 <= i < |alerts[1..]| && alerts[1..][i] == Matches(alerts[1..], valid)[0] &&
          alerts[1..][i].event in valid && forall j :: 0 <= j < i ==> alerts[1..][j].event !in valid;
        assert alerts[i + 1] == Matches(alerts, valid)[0];
        assert forall j :: 0 <= j < i + 1 ==> alerts[j].event !in valid by {
          forall j | 0 <= j < i + 1 ensures alerts[j].event !in valid {
            if j > 0 { assert alerts[j] == alerts[1..][j - 1]; }
          }
        }
      }
    }
  }
}
