/** The dashboard's system status card (`src/components/dashboard/SystemStatusCard.tsx`): whether
    file and registry monitoring are active, with a line of detail for each. */
module SystemStatus {
  import opened Text
  import opened Numbers
  import opened FileMonitorContext
  import opened MonitoredPaths

  datatype Status = Active | Inactive

  /** One row of the card. */
  datatype StatusItem = StatusItem(name: string, status: Status, detail: string)

  /** `Monitoring <n> <noun>`, with the singular exactly for one. */
  function MonitoringText(n: nat, singular: string, plural: string): string {
    "Monitoring " + NatToDecimal(n) + " " + (if n == 1 then singular else plural)
  }

  function DirectoryDetail(n: nat): string {
    if n > 0 then MonitoringText(n, "directory", "directories") else "No directories configured"
  }

  function KeyDetail(n: nat): string {
    if n > 0 then MonitoringText(n, "key", "keys") else "No registry keys configured"
  }

  /** `statuses`, from the number of enabled directories, the registry monitor's flag and the
      number of keys. */
  function Statuses(enabled: nat, isMonitoring: bool, keyCount: nat): (r: seq<StatusItem>)
    ensures |r| == 2 && r[0].name == "File Monitoring" && r[1].name == "Registry Monitoring"
  {
    [StatusItem("File Monitoring", if enabled > 0 then Active else Inactive, DirectoryDetail(enabled)),
     StatusItem("Registry Monitoring", if isMonitoring && keyCount > 0 then Active else Inactive, KeyDetail(keyCount))]
  }

  /** The card as written: the directory count filters on `isEnabled`. */
  function StatusesAsWritten(ds: seq<Directory>, isMonitoring: bool, keys: seq<string>): seq<StatusItem> {
    Statuses(EnabledCountAsWritten(ds), isMonitoring, |keys|)
  }

  /** As written, file monitoring is reported inactive with no directories configured, whatever the
      directories are; one monitored directory is enough to show it. */
  lemma StatusesAsWrittenInactive(ds: seq<Directory>, isMonitoring: bool, keys: seq<string>)
    ensures StatusesAsWritten(ds, isMonitoring, keys)[0] == StatusItem("File Monitoring", Inactive, "No directories configured")
    ensures Statuses(EnabledCount([Directory(DefaultDirectory, true)]), isMonitoring, |keys|)[0].status == Active
  {
    EnabledCountAsWrittenZero(ds);
    EnabledCountAsWrittenMissesOne();
  }

  /** The card as meant: the directory count is the monitored directories. */
  function StatusesOf(ds: seq<Directory>, isMonitoring: bool, keys: seq<string>): seq<StatusItem> {
    Statuses(EnabledCount(ds), isMonitoring, |keys|)
  }

  /** File monitoring is active exactly when some directory is monitored; registry monitoring
      exactly when the monitor runs and at least one key is configured. */
  lemma StatusesActive(ds: seq<Directory>, isMonitoring: bool, keys: seq<string>)
    ensures StatusesOf(ds, isMonitoring, keys)[0].status == Active <==> exists i :: 0 <= i < |ds| && ds[i].isMonitored
    ensures StatusesOf(ds, isMonitoring, keys)[1].status == Active <==> isMonitoring && |keys| > 0
  {
    EnabledCountBounds(ds);
  }

  /** A monitoring text starts with `Monitoring `, carries the count as decimal digits right after
      it, and uses the singular exactly for one (the two nouns differing in length). */
  lemma MonitoringTextShape(n: nat, singular: string, plural: string)
    requires |singular| != |plural|
    ensures StartsWith(MonitoringText(n, singular, plural), "Monitoring ")
    ensures MonitoringText(n, singular, plural)[0] == 'M'
    ensures DecimalValue(MonitoringText(n, singular, plural)[11..11 + |NatToDecimal(n)|]) == n
    ensures MonitoringText(n, singular, plural) == "Monitoring " + NatToDecimal(n) + " " + singular <==> n == 1
  {
    var d := NatToDecimal(n);
    var t := MonitoringText(n, singular, plural);
    var head := "Monitoring ";
    var rest := d + (" " + (if n == 1 then singular else plural));
    DecimalRoundTrip(n);
    assert |head| == 11;
    assert t == head + rest;
    assert t[..|head|] == head;
    assert rest[..|d|] == d;
    assert t[|head|..|head| + |d|] == rest[..|d|];
    if n != 1 {
      assert |t| != |"Monitoring " + d + " " + singular|;
    }
  }

  /** The detail reads `No … configured` exactly for a count of zero; otherwise it names the count,
      which reads back as that number, and uses the singular exactly for one. */
  lemma DetailText(n: nat)
    ensures n == 0 <==> DirectoryDetail(n) == "No directories configured"
    ensures n == 0 <==> KeyDetail(n) == "No registry keys configured"
    ensures n > 0 ==> StartsWith(DirectoryDetail(n), "Monitoring ") && StartsWith(KeyDetail(n), "Monitoring ")
    ensures n > 0 ==> var d := NatToDecimal(n);
      DecimalValue(DirectoryDetail(n)[11..11 + |d|]) == n && DecimalValue(KeyDetail(n)[11..11 + |d|]) == n
    ensures n > 0 ==> (DirectoryDetail(n) == "Monitoring " + NatToDecimal(n) + " directory" <==> n == 1)
    ensures n > 0 ==> (KeyDetail(n) == "Monitoring " + NatToDecimal(n) + " key" <==> n == 1)
  {
    if n > 0 {
      MonitoringTextShape(n, "directory", "directories");
      MonitoringTextShape(n, "key", "keys");
      assert DirectoryDetail(n)[0] != "No directories configured"[0];
      assert KeyDetail(n)[0] != "No registry keys configured"[0];
    }
  }

  /** File status and detail agree: active exactly when the detail names a count. */
  lemma FileStatusMatchesDetail(enabled: nat, isMonitoring: bool, keyCount: nat)
    ensures Statuses(enabled, isMonitoring, keyCount)[0].status == Active <==>
      StartsWith(Statuses(enabled, isMonitoring, keyCount)[0].detail, "Monitoring ")
    ensures Statuses(enabled, isMonitoring, keyCount)[1].status == Active ==>
      StartsWith(Statuses(enabled, isMonitoring, keyCount)[1].detail, "Monitoring ")
  {
    DetailText(enabled);
    DetailText(keyCount);
    if enabled == 0 {
      assert "No directories configured"[..11][0] == 'N' != "Monitoring "[0];
    }
  }

  /** `getStatusColor` and `getStatusText`. */
  function StatusColor(s: Status): string {
    if s == Active then "bg-green-500" else "bg-gray-500"
  }

  function StatusText(s: Status): string {
    if s == Active then "Active" else "Inactive"
  }
}
