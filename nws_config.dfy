/** The per-guild configuration record of the severe-weather plugin
    (nwsshutdown/config.py) and the alert-list edits of its `addalert`,
    `removealert` and `toggle` commands (nwsshutdown/core.py). */
module NwsConfig {
  import opened Common

  type GuildId = nat
  type UserId = nat
  type ChannelId = nat

  const TornadoWarning: string := "Tornado Warning"
  const SevereThunderstormWarning: string := "Severe Thunderstorm Warning"

  /** The two event names `removealert` refuses to remove. */
  predicate IsProtected(name: string)
  {
    name == TornadoWarning || name == SevereThunderstormWarning
  }

  /** One guild's stored settings. `adminIds` is the key the schema registers; the
      sequencer itself reads a differently named key, so the admin lookup enters the
      model as an input (see NwsSequencer). Latitude and longitude are floats in the
      source and `None` until `setlocation` runs. */
  datatype GuildConfig = GuildConfig(
    lat: Option<real>,
    lon: Option<real>,
    alerts: seq<string>,
    adminIds: seq<UserId>,
    announcementChannel: Option<ChannelId>,
    enabled: bool)

  /** Python truthiness of an optional float: `None` and `0.0` are false. */
  predicate Truthy(x: Option<real>)
  {
    x.Some? && x.value != 0.0
  }

  /** The poll loop only looks at a guild that is enabled and whose latitude and
      longitude are both truthy. */
  predicate Monitored(c: GuildConfig)
  {
    c.enabled && Truthy(c.lat) && Truthy(c.lon)
  }

  predicate NoDuplicates(s: seq<string>)
  {
    forall i, j :: 0 <= i < j < |s| ==> s[i] != s[j]
  }

  /** What every reachable configuration satisfies: the alert list has no repeated
      name and still holds both protected names. */
  predicate WellFormed(c: GuildConfig)
  {
    NoDuplicates(c.alerts) && TornadoWarning in c.alerts && SevereThunderstormWarning in c.alerts
  }

  /** The registered default record. */
  function DefaultGuildConfig(): (c: GuildConfig)
    ensures WellFormed(c)
    ensures !Monitored(c)
    ensures c.lat == None && c.lon == None && !c.enabled
    ensures c.alerts == [TornadoWarning, SevereThunderstormWarning]
    ensures c.adminIds == [] && c.announcementChannel == None
  {
    GuildConfig(None, None, [TornadoWarning, SevereThunderstormWarning], [], None, false)
  }

  /** `addalert`: the name is appended when absent; otherwise the list is left alone. */
  function AddAlert(alerts: seq<string>, name: string): (r: seq<string>)
    ensures name in r
    ensures name in alerts ==> r == alerts
    ensures name !in alerts ==> |r| == |alerts| + 1 && r[..|alerts|] == alerts
  {
    if name in alerts then alerts else alerts + [name]
  }

  lemma AddAlertKeepsWellFormed(c: GuildConfig, name: string)
    requires WellFormed(c)
    ensures WellFormed(c.(alerts := AddAlert(c.alerts, name)))
  {
  }

  /** The position of the first occurrence of `x`. */
  function FirstIndex(s: seq<string>, x: string): (k: nat)
    requires x in s
    ensures k < |s| && s[k] == x && x !in s[..k]
  {
    if s[0] == x then 0
    else
      var k := FirstIndex(s[1..], x);
      assert s[..k + 1] == [s[0]] + s[1..][..k];
      k + 1
  }

  /** Python's `list.remove`: cuts out the first occurrence of `x`, keeping the rest in
      order; exactly one copy of `x` goes. */
  function RemoveFirst(s: seq<string>, x: string): (r: seq<string>)
    requires x in s
    ensures |r| == |s| - 1
    ensures multiset(r) == multiset(s) - multiset{x}
  {
    var k := FirstIndex(s, x);
    assert s == s[..k] + [x] + s[k + 1..];
    s[..k] + s[k + 1..]
  }

  /** Every element that is not `x` survives `RemoveFirst`. */
  lemma RemoveFirstKeepsOthers(s: seq<string>, x: string, y: string)
    requires x in s && y in s && y != x
    ensures y in RemoveFirst(s, x)
  {
    assert multiset(s)[y] > 0;
  }

  /** In a list without duplicates, `RemoveFirst` removes the name entirely and leaves
      a list without duplicates. */
  lemma RemoveFirstRemovesAll(s: seq<string>, x: string)
    requires x in s && NoDuplicates(s)
    ensures x !in RemoveFirst(s, x)
    ensures NoDuplicates(RemoveFirst(s, x))
  {
    var k := FirstIndex(s, x);
    var r := RemoveFirst(s, x);
    assert forall i :: 0 <= i < k ==> r[i] == s[i];
    assert forall i :: k <= i < |r| ==> r[i] == s[i + 1];
  }

  /** `removealert`: a name is removed only when it is listed and is not protected. */
  function RemoveAlert(alerts: seq<string>, name: string): (r: seq<string>)
    ensures name !in alerts || IsProtected(name) ==> r == alerts
    ensures name in alerts && !IsProtected(name) ==>
      |r| == |alerts| - 1 && multiset(r) == multiset(alerts) - multiset{name}
  {
    if name in alerts && !IsProtected(name) then RemoveFirst(alerts, name) else alerts
  }

  /** A removal never takes away a protected name, and in a well-formed record a
      successful removal leaves no copy of the name behind. */
  lemma RemoveAlertKeepsWellFormed(c: GuildConfig, name: string)
    requires WellFormed(c)
    ensures WellFormed(c.(alerts := RemoveAlert(c.alerts, name)))
    ensures !IsProtected(name) ==> name !in RemoveAlert(c.alerts, name)
  {
    if name in c.alerts && !IsProtected(name) {
      RemoveFirstKeepsOthers(c.alerts, name, TornadoWarning);
      RemoveFirstKeepsOthers(c.alerts, name, SevereThunderstormWarning);
      RemoveFirstRemovesAll(c.alerts, name);
    }
  }
}
