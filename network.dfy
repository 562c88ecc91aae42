/**
 * The policy layer of the network service: the domain allow-list, the
 * per-identity rate limit, and the shell command each network tool would
 * run.
 *
 * Running the command is left to the host. Here a tool yields either a
 * refusal or the command line to launch. `Finish` turns what the launched
 * process reported into the reply. The platform and the clock are
 * parameters.
 */
module Network {
  import opened Wrappers
  import opened Text
  import opened Results

  /** The domains every lookup may name (a host may also be a subdomain of one). */
  function AllowedDomains(): seq<string>
  {
    ["google.com", "github.com", "stackoverflow.com", "wikipedia.org",
     "example.com", "localhost", "127.0.0.1", "::1"]
  }

  const RateLimitWindow: int := 60000
  const MaxRequestsPerWindow: nat := 10

  /** The characters JavaScript's `.` in a regular expression does not match. */
  predicate IsLineTerminator(c: char)
  {
    c == '\n' || c == '\r' || c == '\U{2028}' || c == '\U{2029}'
  }

  predicate NoLineTerminator(s: string)
  {
    forall i :: 0 <= i < |s| ==> !IsLineTerminator(s[i])
  }

  /** Removing a leading `http://` or `https://` (matched case-sensitively). */
  function StripScheme(s: string): (r: string)
    ensures |r| <= |s| && r == s[|s| - |r|..]
    ensures !StartsWith(s, "http://") && !StartsWith(s, "https://") ==> r == s
  {
    if StartsWith(s, "https://") then s[8..]
    else if StartsWith(s, "http://") then s[7..]
    else s
  }

  /**
   * Removing `/.*$`: the leftmost `/` after which no line terminator
   * follows, and everything after it.
   */
  function CutPath(s: string): (r: string)
    ensures |r| <= |s| && r == s[..|r|]
    ensures NoLineTerminator(s) ==> '/' !in r && (r == s || s[|r|] == '/')
    decreases |s|
  {
    if |s| == 0 then s
    else if s[0] == '/' && NoLineTerminator(s[1..]) then ""
    else
      var rest := CutPath(s[1..]);
      assert NoLineTerminator(s) ==> NoLineTerminator(s[1..]);
      [s[0]] + rest
  }

  /** The host part `validateDomain` compares against the list. */
  function Clean(domain: string): string
  {
    Lower(CutPath(StripScheme(domain)))
  }

  /** `host` is `allowed` or a subdomain of it. */
  predicate Matches(host: string, allowed: string)
  {
    host == allowed || EndsWith(host, "." + allowed)
  }

  /** `allowedDomains.some(...)` over the entries in `list`. */
  function SomeMatch(host: string, list: seq<string>): (b: bool)
    ensures b <==> exists i :: 0 <= i < |list| && Matches(host, list[i])
    decreases |list|
  {
    if |list| == 0 then false
    else if Matches(host, list[0]) then true
    else
      var b := SomeMatch(host, list[1..]);
      assert b <==> exists i :: 1 <= i < |list| && Matches(host, list[i]) by {
        if b {
          var i :| 0 <= i < |list[1..]| && Matches(host, list[1..][i]);
          assert Matches(host, list[i + 1]);
        }
        if exists i :: 1 <= i < |list| && Matches(host, list[i]) {
          var i :| 1 <= i < |list| && Matches(host, list[i]);
          assert Matches(host, list[1..][i - 1]);
        }
      }
      b
  }

  /** `validateDomain`: the cleaned host is an allowed domain or a subdomain of one. */
  function ValidateDomain(domain: string): (ok: bool)
    ensures ok <==> exists a :: a in AllowedDomains() && Matches(Clean(domain), a)
  {
    var ok := SomeMatch(Clean(domain), AllowedDomains());
    assert ok <==> exists a :: a in AllowedDomains() && Matches(Clean(domain), a) by {
      if ok {
        var i :| 0 <= i < |AllowedDomains()| && Matches(Clean(domain), AllowedDomains()[i]);
        assert AllowedDomains()[i] in AllowedDomains();
      }
    }
    ok
  }

  /** A host with no scheme, path or upper case is checked as it stands. */
  lemma ValidatePlainHost(host: string)
    requires '/' !in host && NoLineTerminator(host)
    requires forall i :: 0 <= i < |host| ==> LowerChar(host[i]) == host[i]
    ensures ValidateDomain(host) <==> exists a :: a in AllowedDomains() && Matches(host, a)
  {
    assert !StartsWith(host, "http://") && !StartsWith(host, "https://") by {
      if |host| >= 7 {
        assert host[6] in host;
      }
    }
    assert StripScheme(host) == host;
    var c := CutPath(host);
    assert c == host;
    assert Lower(c) == host;
  }

  /** The path after the host does not count: `google.com/x` is checked as `google.com`. */
  lemma ValidateIgnoresPath(host: string, path: string)
    requires '/' !in host && NoLineTerminator(host) && NoLineTerminator(path)
    requires |host| > 0 && host[0] != 'h'
    ensures Clean(host + "/" + path) == Clean(host)
    decreases |host|
  {
    var s := host + "/" + path;
    assert StripScheme(s) == s by {
      assert !StartsWith(s, "http://") && !StartsWith(s, "https://") by {
        assert s[0] == host[0];
      }
    }
    assert StripScheme(host) == host by {
      if |host| >= 7 { assert host[0] == s[0]; }
    }
    CutAtSlash(host, path);
  }

  lemma {:induction false} CutAtSlash(host: string, path: string)
    requires '/' !in host && NoLineTerminator(host) && NoLineTerminator(path)
    ensures CutPath(host + "/" + path) == host && CutPath(host) == host
    decreases |host|
  {
    var s := host + "/" + path;
    if |host| == 0 {
      assert s[1..] == path;
    } else {
      assert s[1..] == host[1..] + "/" + path;
      assert !NoLineTerminator(s[1..]) || s[0] != '/';
      CutAtSlash(host[1..], path);
      assert [host[0]] + host[1..] == host;
    }
  }

  /** Where the command runs: `process.platform === 'win32'` or any other platform. */
  datatype Platform = Win32 | Posix

  /** What a network tool does before anything runs: refuse, or launch a command line. */
  datatype Request = Refused(reply: CommandResult) | Launch(tool: string, command: string)

  /** What the launched process reported. */
  datatype ExecResult = Exited(stdout: string, stderr: string) | Failed(message: string)

  /** The reply once the command has run: its output, or the error under the tool's name. */
  function Finish(tool: string, e: ExecResult): (r: CommandResult)
    ensures r.success <==> e.Exited?
    ensures e.Exited? && e.stdout != "" ==> r.output == Text(e.stdout)
    ensures e.Exited? && e.stdout == "" ==> r.output == Text(e.stderr)
    ensures e.Failed? ==> r.output == Text(tool + ": " + e.message)
  {
    match e
    case Exited(out, err) => Ok(if out != "" then out else err)
    case Failed(msg) => Fail(tool + ": " + msg)
  }

  /** The refusal of a host outside the allow-list. */
  function Restricted(tool: string, host: string): CommandResult
  {
    Fail(tool + ": " + host + RestrictedNote)
  }

  const RestrictedNote: string := ": Name or service not known (restricted domain)"

  /**
   * `options.x || d` for a numeric option that the shell filled with
   * `parseInt`: absent, not a number (`None`) or zero falls back to `d`; any
   * other value, negative ones included, is kept.
   */
  function OrDefault(o: Option<int>, d: nat): (n: int)
    ensures o.Some? && o.value != 0 ==> n == o.value
    ensures o.None? || o.value == 0 ==> n == d
  {
    if o.Some? && o.value != 0 then o.value else d
  }

  /** `options.type || 'A'`: absent or empty falls back to `A`. */
  function RecordType(o: Option<string>): (t: string)
    ensures t != ""
    ensures o.Some? && o.value != "" ==> t == o.value
  {
    if o.Some? && o.value != "" then o.value else "A"
  }

  /** The guard shared by the host-taking tools: an unlisted host is refused, nothing is built. */
  function Guarded(tool: string, host: string, command: string): (r: Request)
    ensures r.Refused? <==> !ValidateDomain(host)
    ensures r.Refused? ==> r.reply == Restricted(tool, host)
    ensures r.Launch? ==> r.tool == tool && r.command == command
  {
    if !ValidateDomain(host) then Refused(Restricted(tool, host)) else Launch(tool, command)
  }

  /** The probe count flag of `ping` and its value, with the space after it. */
  function CountFlag(count: int, platform: Platform): string
  {
    (if platform == Win32 then "ping -n " else "ping -c ") + IntToString(count) + " "
  }

  /** The wait flag of `ping`: milliseconds on Windows, seconds elsewhere. */
  function WaitFlag(timeout: int, platform: Platform): string
  {
    if platform == Win32 then "-w " + IntToString(timeout * 1000) else "-W " + IntToString(timeout)
  }

  function PingCommand(host: string, count: int, timeout: int, platform: Platform): string
  {
    CountFlag(count, platform) + WaitFlag(timeout, platform) + " " + host
  }

  /** The `ping` command line written out per platform, as the source's template literals. */
  function PingLine(host: string, count: int, timeout: int, platform: Platform): string
  {
    if platform == Win32
    then "ping -n " + IntToString(count) + " -w " + IntToString(timeout * 1000) + " " + host
    else "ping -c " + IntToString(count) + " -W " + IntToString(timeout) + " " + host
  }

  /** A line `head + middle + " " + host` starts with its head and ends with the raw host. */
  lemma Framed(head: string, middle: string, host: string)
    ensures StartsWith(head + middle + " " + host, head)
    ensures EndsWith(head + middle + " " + host, " " + host)
  {
    assert head + middle + " " + host == (head + middle) + " " + host;
    EndsWithTail(head + middle + " " + host, host);
    assert head + middle + " " + host == head + (middle + " " + host);
    PrefixStarts(head, middle + " " + host);
  }

  lemma PingCommandLine(host: string, count: int, timeout: int, platform: Platform)
    ensures PingCommand(host, count, timeout, platform) == PingLine(host, count, timeout, platform)
  {
    var c, t := IntToString(count), IntToString(timeout);
    if platform == Win32 {
      var w := IntToString(timeout * 1000);
      assert ("ping -n " + c + " ") + ("-w " + w) + " " + host == "ping -n " + c + " -w " + w + " " + host;
    } else {
      assert ("ping -c " + c + " ") + ("-W " + t) + " " + host == "ping -c " + c + " -W " + t + " " + host;
    }
  }

  function Ping(host: string, count: Option<int>, timeout: Option<int>, platform: Platform): (r: Request)
    ensures r.Refused? <==> !ValidateDomain(host)
    ensures r.Refused? ==> r.reply == Restricted("ping", host)
    ensures r.Launch? ==> EndsWith(r.command, " " + host)
    ensures r.Launch? ==> StartsWith(r.command, CountFlag(OrDefault(count, 4), platform))
    ensures r.Launch? ==> r.command == PingLine(host, OrDefault(count, 4), OrDefault(timeout, 5), platform)
  {
    var c, t := OrDefault(count, 4), OrDefault(timeout, 5);
    Framed(CountFlag(c, platform), WaitFlag(t, platform), host);
    PingCommandLine(host, c, t, platform);
    Guarded("ping", host, PingCommand(host, c, t, platform))
  }

  function Nslookup(domain: string, recordType: Option<string>): (r: Request)
    ensures r.Refused? <==> !ValidateDomain(domain)
    ensures r.Refused? ==> r.reply == Restricted("nslookup", domain)
    ensures r.Launch? ==> EndsWith(r.command, " " + domain)
    ensures r.Launch? ==> r.command == "nslookup -type=" + RecordType(recordType) + " " + domain
  {
    var cmd := "nslookup -type=" + RecordType(recordType) + " " + domain;
    EndsWithTail(cmd, domain);
    Guarded("nslookup", domain, cmd)
  }

  function Dig(domain: string, recordType: Option<string>): (r: Request)
    ensures r.Refused? <==> !ValidateDomain(domain)
    ensures r.Refused? ==> r.reply == Restricted("dig", domain)
    ensures r.Launch? ==> EndsWith(r.command, " " + domain)
    ensures r.Launch? ==> r.command == "dig " + RecordType(recordType) + " " + domain
  {
    var cmd := "dig " + RecordType(recordType) + " " + domain;
    EndsWithTail(cmd, domain);
    Guarded("dig", domain, cmd)
  }

  function Traceroute(host: string, maxHops: Option<int>, platform: Platform): (r: Request)
    ensures r.Refused? <==> !ValidateDomain(host)
    ensures r.Refused? ==> r.reply == Restricted("traceroute", host)
    ensures r.Launch? ==> EndsWith(r.command, " " + host)
    ensures r.Launch? ==> r.command == (if platform == Win32 then "tracert -h " else "traceroute -m ")
                                       + IntToString(OrDefault(maxHops, 30)) + " " + host
  {
    var hops := IntToString(OrDefault(maxHops, 30));
    var cmd := if platform == Win32 then "tracert -h " + hops + " " + host
               else "traceroute -m " + hops + " " + host;
    EndsWithTail(cmd, host);
    Guarded("traceroute", host, cmd)
  }

  function Whois(domain: string): (r: Request)
    ensures r.Refused? <==> !ValidateDomain(domain)
    ensures r.Refused? ==> r.reply == Restricted("whois", domain)
    ensures r.Launch? ==> r.command == "whois " + domain
  {
    Guarded("whois", domain, "whois " + domain)
  }

  /** A command line built as `prefix + " " + arg` ends with the raw argument. */
  lemma EndsWithTail(cmd: string, arg: string)
    requires exists prefix :: cmd == prefix + " " + arg
    ensures EndsWith(cmd, " " + arg)
  {
    var prefix :| cmd == prefix + " " + arg;
    assert cmd == prefix + (" " + arg);
  }

  /**
   * An option left out, or given as zero or empty, means four probes, a
   * five-second wait, record type A and thirty hops.
   */
  lemma Defaults(host: string, platform: Platform, zero: Option<int>, empty: Option<string>)
    requires zero.None? || zero == Some(0)
    requires empty.None? || empty == Some("")
    ensures Ping(host, zero, zero, platform) == Ping(host, Some(4), Some(5), platform)
    ensures Nslookup(host, empty) == Nslookup(host, Some("A"))
    ensures Dig(host, empty) == Dig(host, Some("A"))
    ensures Traceroute(host, zero, platform) == Traceroute(host, Some(30), platform)
  {
    assert OrDefault(zero, 4) == OrDefault(Some(4), 4) && OrDefault(zero, 5) == OrDefault(Some(5), 5);
    assert OrDefault(zero, 30) == OrDefault(Some(30), 30);
    assert RecordType(empty) == RecordType(Some("A"));
  }

  /** `netstat`: takes no host and never consults the allow-list. */
  function Netstat(platform: Platform): (r: Request)
    ensures r.Launch? && r.tool == "netstat"
  {
    Launch("netstat", if platform == Win32 then "netstat -an" else "netstat -tuln")
  }

  /** `ipAddrShow`: takes no host and never consults the allow-list. */
  function IpAddrShow(platform: Platform): (r: Request)
    ensures r.Launch? && r.tool == "ip"
  {
    Launch("ip", if platform == Win32 then "ipconfig /all" else "ip addr show")
  }

  /** `route`: takes no host and never consults the allow-list. */
  function Route(platform: Platform): (r: Request)
    ensures r.Launch? && r.tool == "route"
  {
    Launch("route", if platform == Win32 then "route print" else "route -n")
  }

  /** `arp`: takes no host and never consults the allow-list. */
  function Arp(platform: Platform): (r: Request)
    ensures r.Launch? && r.tool == "arp"
  {
    Launch("arp", "arp -a")
  }

  /** Unlike the other host-less tools, `arp` runs the same command on every platform. */
  lemma ArpEverywhere(p: Platform, q: Platform)
    ensures Arp(p) == Arp(q)
    ensures Netstat(Win32) != Netstat(Posix) && IpAddrShow(Win32) != IpAddrShow(Posix) && Route(Win32) != Route(Posix)
  {
  }

  const IwconfigOnWindows: string := "iwconfig: command not found (Windows system)"

  /** `iwconfig`: refused on Windows without running anything, launched elsewhere. */
  function Iwconfig(platform: Platform): (r: Request)
    ensures r.Refused? <==> platform == Win32
    ensures r.Launch? ==> r.tool == "iwconfig"
  {
    if platform == Win32 then Refused(Fail(IwconfigOnWindows))
    else Launch("iwconfig", "iwconfig")
  }

  // Rate limiting.

  /** `times.filter(t => now - t < 60000)`: the timestamps still inside the window. */
  function Recent(times: seq<int>, now: int): (r: seq<int>)
    ensures |r| <= |times|
    ensures forall t :: t in r <==> t in times && now - t < RateLimitWindow
    decreases |times|
  {
    if |times| == 0 then []
    else
      var last := times[|times| - 1];
      var front := Recent(times[..|times| - 1], now);
      assert times == times[..|times| - 1] + [last];
      if now - last < RateLimitWindow then front + [last] else front
  }

  /**
   * One `checkRateLimit(ip)` at time `now` on the whole ledger: whether the
   * call is admitted, and the ledger afterwards.
   */
  function RateCheck(ledger: map<string, seq<int>>, ip: string, now: int): (r: (bool, map<string, seq<int>>))
    ensures var entry := if ip in ledger then ledger[ip] else [];
      r.0 <==> |Recent(entry, now)| < MaxRequestsPerWindow
    ensures r.0 ==> ip in r.1 && r.1[ip] == Recent(if ip in ledger then ledger[ip] else [], now) + [now]
    ensures !r.0 ==> r.1 == ledger
    ensures forall k :: k != ip ==> (k in r.1 <==> k in ledger) && (k in ledger ==> r.1[k] == ledger[k])
  {
    var recent := Recent(if ip in ledger then ledger[ip] else [], now);
    if |recent| >= MaxRequestsPerWindow then (false, ledger)
    else (true, ledger[ip := recent + [now]])
  }

  /** How many of `times` fall in the window of 60000 ms that ends at `t`. */
  function InWindow(times: seq<int>, t: int): nat
    decreases |times|
  {
    if |times| == 0 then 0
    else
      var last := times[|times| - 1];
      InWindow(times[..|times| - 1], t) + (if t - RateLimitWindow < last <= t then 1 else 0)
  }

  /** Pruning at an earlier time and then at `now` is the same as pruning at `now`. */
  lemma {:induction false} RecentTwice(times: seq<int>, earlier: int, now: int)
    requires earlier <= now
    ensures Recent(Recent(times, earlier), now) == Recent(times, now)
    decreases |times|
  {
    if |times| > 0 {
      var front := times[..|times| - 1];
      var last := times[|times| - 1];
      RecentTwice(front, earlier, now);
      var r := Recent(front, earlier);
      if earlier - last < RateLimitWindow {
        assert Recent(times, earlier) == r + [last];
        assert (r + [last])[..|r + [last]| - 1] == r;
      }
    }
  }

  /** A window ending at or after `now` holds no more timestamps than the pruning at `now` keeps. */
  lemma {:induction false} InWindowRecent(times: seq<int>, now: int, t: int)
    requires now <= t
    ensures InWindow(times, t) <= |Recent(times, now)|
    decreases |times|
  {
    if |times| > 0 {
      InWindowRecent(times[..|times| - 1], now, t);
    }
  }

  /**
   * What the ledger entry of one identity records: `accepted` are the times
   * of every admitted call so far, `last` the latest of them, and the entry
   * is what the pruning at `last` kept.
   */
  ghost predicate Ledger(entry: seq<int>, accepted: seq<int>, last: int)
  {
    entry == Recent(accepted, last) && forall t :: InWindow(accepted, t) <= MaxRequestsPerWindow
  }

  lemma FreshLedger(now: int)
    ensures Ledger([], [], now)
  {
  }

  /**
   * Calls arriving in time order never admit more than ten calls of one
   * identity within any window of 60000 ms: each admitted call keeps the
   * ledger invariant, and a refused one leaves it as it was.
   */
  lemma RateLimitWindowBound(ledger: map<string, seq<int>>, ip: string, accepted: seq<int>, last: int, now: int)
    requires last <= now
    requires Ledger(if ip in ledger then ledger[ip] else [], accepted, last)
    ensures var r := RateCheck(ledger, ip, now);
      if r.0 then Ledger(r.1[ip], accepted + [now], now) else r.1 == ledger
  {
    var entry := if ip in ledger then ledger[ip] else [];
    var r := RateCheck(ledger, ip, now);
    if r.0 {
      var grown := accepted + [now];
      RecentTwice(accepted, last, now);
      assert grown[..|grown| - 1] == accepted;
      assert Recent(grown, now) == Recent(accepted, now) + [now];
      forall t | true
        ensures InWindow(grown, t) <= MaxRequestsPerWindow
      {
        if t - RateLimitWindow < now <= t {
          InWindowRecent(accepted, now, t);
        }
      }
    }
  }

  /** The `rateLimit` Map of a `NetworkService`. */
  class RateLimiter {
    var rateLimit: map<string, seq<int>>

    constructor ()
      ensures rateLimit == map[]
    {
      rateLimit := map[];
    }

    /** `checkRateLimit(ip)` with the clock reading `now` passed in. */
    method CheckRateLimit(ip: string, now: int) returns (admitted: bool)
      modifies this
      ensures (admitted, rateLimit) == RateCheck(old(rateLimit), ip, now)
    {
      var userRequests := if ip in rateLimit then rateLimit[ip] else [];
      var recentRequests := Recent(userRequests, now);
      if |recentRequests| >= MaxRequestsPerWindow {
        return false;
      }
      recentRequests := recentRequests + [now];
      rateLimit := rateLimit[ip := recentRequests];
      return true;
    }
  }
}
