/**
  The decision part of the update checker: given the version published
  remotely (or the failure to fetch it), the settings and the plugin's own
  version, whether an update is offered and what else happens.
 */
module Updates {
  import opened Options
  import opened Versions

  /** The version this plugin reports as its own. */
  const PluginVersion: string := "1.0.0"

  /** How one update check ends. */
  datatype UpdateCheck =
    | Disabled                  // the checkUpdates setting is off
    | FetchFailed               // response not ok, network error or bad JSON
    | Offered(version: string)  // a newer, not ignored version: returned to the caller
    | IgnoredVersion            // newer, but the user chose to ignore exactly this version
    | UpToDate                  // the remote version is not newer

  /** The remote version is strictly newer than ours. */
  ghost predicate IsNewer(remote: string)
  {
    exists i: nat :: NewerAt(ParseVersion(remote), ParseVersion(PluginVersion), i)
  }

  /**
    checkForUpdates without its I/O: `fetched` is the version field of the
    fetched JSON, None when the fetch did not deliver one.
   */
  function CheckForUpdates(checkUpdates: bool, fetched: Option<string>, ignored: string): (r: UpdateCheck)
    ensures r.Offered? <==> checkUpdates && fetched.Some? && IsNewer(fetched.value) && fetched.value != ignored
    ensures r.Offered? ==> r.version == fetched.value
    ensures r == IgnoredVersion <==> checkUpdates && fetched.Some? && IsNewer(fetched.value) && fetched.value == ignored
    ensures r == UpToDate <==> checkUpdates && fetched.Some? && !IsNewer(fetched.value)
    ensures r == Disabled <==> !checkUpdates
  {
    if !checkUpdates then Disabled
    else if fetched.None? then FetchFailed
    else
      var remote := fetched.value;
      CompareSpec(ParseVersion(remote), ParseVersion(PluginVersion));
      if CompareStrings(remote, PluginVersion) > 0 then
        if remote != ignored then Offered(remote) else IgnoredVersion
      else UpToDate
  }

  /** The update modal is shown only for an offered update, and only when asked to notify. */
  predicate ShowsModal(r: UpdateCheck, showNotification: bool)
  {
    r.Offered? && showNotification
  }

  /** The "No Updates" notification. */
  predicate NotifiesLatest(r: UpdateCheck, showNotification: bool)
  {
    r == UpToDate && showNotification
  }

  /** lastUpdateCheck is written after a completed check that offered nothing. */
  predicate RecordsCheckTime(r: UpdateCheck)
  {
    r == IgnoredVersion || r == UpToDate
  }

  /**
    An offered update is surfaced only when strictly newer and not ignored,
    and an offered (returned) update never records the check time.
   */
  lemma OfferedOnlyWhenNewerAndNotIgnored(checkUpdates: bool, fetched: Option<string>, ignored: string)
    ensures var r := CheckForUpdates(checkUpdates, fetched, ignored);
      r.Offered? ==> CompareStrings(r.version, PluginVersion) == 1 && r.version != ignored && !RecordsCheckTime(r)
  {
  }

  /**
    What a check leads to, in terms of its inputs: the modal exactly for a
    newer, not ignored version when notifying; the "No Updates" notice
    exactly for a version that is not newer when notifying; and the check
    time recorded exactly when a fetched version was not offered.
   */
  lemma CheckEffects(checkUpdates: bool, fetched: Option<string>, ignored: string, showNotification: bool)
    ensures var r := CheckForUpdates(checkUpdates, fetched, ignored);
      ShowsModal(r, showNotification) <==>
        showNotification && checkUpdates && fetched.Some? && IsNewer(fetched.value) && fetched.value != ignored
    ensures var r := CheckForUpdates(checkUpdates, fetched, ignored);
      NotifiesLatest(r, showNotification) <==>
        showNotification && checkUpdates && fetched.Some? && !IsNewer(fetched.value)
    ensures var r := CheckForUpdates(checkUpdates, fetched, ignored);
      RecordsCheckTime(r) <==> checkUpdates && fetched.Some? && !r.Offered?
  {
  }

  /** Publishing our own version, in any number of trailing zeros, never offers an update. */
  lemma SameVersionNotOffered(extraZeros: nat, fetched: string, ignored: string)
    requires ParseVersion(fetched) == [1, 0, 0] + seq(extraZeros, _ => 0)
    ensures CheckForUpdates(true, Some(fetched), ignored) == UpToDate
  {
    ParseSamples();
    var v := ParseVersion(fetched);
    var z := seq(extraZeros, _ => 0);
    forall j: nat ensures Part(v, j) == Part([1, 0, 0], j) {
      if 3 <= j < |v| { assert v[j] == z[j - 3]; }
    }
    CompareSpec(v, [1, 0, 0]);
  }
}
