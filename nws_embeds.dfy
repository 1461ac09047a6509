/** The text of the two embeds the weather plugin sends (nwsshutdown/embeds.py):
    the alert shown to the admin, with its description cut at 500 characters and its
    expiry, and the guild-wide shutdown notice. */
module NwsEmbeds {
  import opened Common
  import opened NwsFilter

  const DescriptionLimit: nat := 500
  const Ellipsis: string := "..."
  const UnknownExpiry: string := "Unknown"

  function Min(a: nat, b: nat): nat { if a <= b then a else b }

  /** The description as the admin embed shows it: at most 500 characters of the
      original, followed by "..." when something was cut. */
  function TruncateDescription(d: string): (r: string)
    ensures Min(|d|, DescriptionLimit) <= |r| <= DescriptionLimit + |Ellipsis|
    ensures r[..Min(|d|, DescriptionLimit)] == d[..Min(|d|, DescriptionLimit)]
    ensures |d| <= DescriptionLimit ==> r == d
    ensures |d| > DescriptionLimit ==> |r| == DescriptionLimit + |Ellipsis| && r[DescriptionLimit..] == Ellipsis
  {
    if |d| > DescriptionLimit then d[..DescriptionLimit] + Ellipsis else d
  }

  /** The "Expires" field: the alert's expiry when it has one. */
  function ExpiresField(a: Alert): (r: string)
    ensures a.expires.Some? ==> r == a.expires.value
    ensures a.expires.None? ==> r == UnknownExpiry
  {
    match a.expires
    case Some(e) => e
    case None => UnknownExpiry
  }

  const TypeLabel: string := "**Type:** "
  const AreaLabel: string := "\n**Area:** "
  const IssuerLabel: string := "\n**Issued By:** "
  const BodySeparator: string := "\n\n"

  /** The admin embed's description. */
  function AdminDescription(a: Alert): (r: string)
    ensures |TypeLabel| <= |r| && r[..|TypeLabel|] == TypeLabel
    ensures |TruncateDescription(a.description)| <= |r|
    ensures r[|r| - |TruncateDescription(a.description)|..] == TruncateDescription(a.description)
  {
    TypeLabel + a.event + AreaLabel + a.areaDesc + IssuerLabel + a.senderName + BodySeparator
      + TruncateDescription(a.description)
  }

  /** The admin embed lists the event, the area and the issuer, in that order, and
      ends with the (possibly shortened) description. */
  lemma AdminDescriptionLayout(a: Alert)
    ensures var r, pEvent := AdminDescription(a), |TypeLabel|;
      var pArea := pEvent + |a.event| + |AreaLabel|;
      var pSender := pArea + |a.areaDesc| + |IssuerLabel|;
      var pBody := pSender + |a.senderName| + |BodySeparator|;
      && pEvent < pArea < pSender < pBody <= |r|
      && OccursAt(a.event, r, pEvent)
      && OccursAt(a.areaDesc, r, pArea)
      && OccursAt(a.senderName, r, pSender)
      && r[pBody..] == TruncateDescription(a.description)
  {
  }

  const AnnouncementOpening: string :=
    "Due to active severe weather in the area, the servers will be shut down shortly for safety reasons.\n\n"
  const AnnouncementClosing: string := "\nStay safe and follow local safety instructions."

  /** The guild-wide shutdown notice's description. */
  function AnnouncementDescription(a: Alert): (r: string)
    ensures |AnnouncementOpening| + |AnnouncementClosing| < |r|
    ensures r[..|AnnouncementOpening|] == AnnouncementOpening
    ensures r[|r| - |AnnouncementClosing|..] == AnnouncementClosing
  {
    AnnouncementOpening + TypeLabel + a.event + AnnouncementClosing
  }

  /** The shutdown notice names the alert's event type. */
  lemma AnnouncementNamesEvent(a: Alert)
    ensures IsSubstring(a.event, AnnouncementDescription(a))
  {
    var r := AnnouncementDescription(a);
    var p := |AnnouncementOpening + TypeLabel|;
    assert r[p..p + |a.event|] == a.event;
    assert OccursAt(a.event, r, p);
  }
}
