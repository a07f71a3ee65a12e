/**
 * The controller's pure helpers: choosing the target process from the
 * listing of running UWP processes (`find_process`), and the integer
 * arithmetic of the progress line (`display_progress`).
 */
module Cli {
  import opened Wrappers
  import opened Text

  /** A running UWP process as the process listing reports it. */
  datatype ProcessInfo = ProcessInfo(pid: nat, name: string)

  /** Index of the first process with the given pid, or the length. */
  function IndexOfPid(ps: seq<ProcessInfo>, pid: nat): (k: nat)
    ensures k <= |ps|
    ensures forall j :: 0 <= j < k ==> ps[j].pid != pid
    ensures k < |ps| ==> ps[k].pid == pid
  {
    if ps == [] then 0 else if ps[0].pid == pid then 0 else 1 + IndexOfPid(ps[1..], pid)
  }

  /** `find_process`: a failed listing finds nothing; with a pid, the first
      process with that pid, whatever the name; otherwise, with a name, the
      first process whose lower-cased name contains the lower-cased query;
      with neither, nothing. */
  function FindProcess(listing: Result<seq<ProcessInfo>, string>, pid: Option<nat>, name: Option<string>): (r: Option<ProcessInfo>)
    ensures listing.Err? || (pid.None? && name.None?) ==> r == None
    ensures listing.Ok? && pid.Some? ==>
      (r.Some? <==> exists j :: 0 <= j < |listing.value| && listing.value[j].pid == pid.value) &&
      (r.Some? ==> exists k :: (0 <= k < |listing.value| && r.value == listing.value[k] && r.value.pid == pid.value &&
                                forall j :: 0 <= j < k ==> listing.value[j].pid != pid.value))
    ensures listing.Ok? && pid.None? && name.Some? ==>
      (r.Some? <==> exists j :: 0 <= j < |listing.value| && NameMatches(listing.value[j].name, name.value)) &&
      (r.Some? ==> exists k :: (0 <= k < |listing.value| && r.value == listing.value[k] && NameMatches(r.value.name, name.value) &&
                                forall j :: 0 <= j < k ==> !NameMatches(listing.value[j].name, name.value)))
  {
    match listing
    case Err(_) => None
    case Ok(ps) =>
      if pid.Some? then
        var k := IndexOfPid(ps, pid.value);
        if k < |ps| then Some(ps[k]) else None
      else if name.Some? then
        var k := IndexOfMatch(ps, (p: ProcessInfo) => p.name, name.value);
        if k < |ps| then Some(ps[k]) else None
      else None
  }

  /** The name is not consulted when a pid is given. */
  lemma FindProcessIgnoresName(listing: Result<seq<ProcessInfo>, string>, pid: nat, name: Option<string>)
    ensures FindProcess(listing, Some(pid), name) == FindProcess(listing, Some(pid), None)
  {
  }

  // ---------------------------------------------------------------------
  // The progress line
  // ---------------------------------------------------------------------

  /** `u32` values are below this bound; arithmetic on them wraps modulo it. */
  const U32: nat := 0x1_0000_0000

  /** Width of the drawn bar, in cells. */
  const BarWidth: nat := 40

  /** What `display_progress` draws: nothing, a directory count while the
      total is unknown, a bar of `filled` and `empty` cells, or a panic from
      the `bar_width - filled` subtraction. */
  datatype ProgressLine = Blank | Scanned(dirs: nat) | Bar(percent: nat, filled: nat, empty: nat) | Underflow

  /** `display_progress` as written, with the `u32` product `current * 100`
      wrapping as it does in a build without overflow checks. */
  function DisplayProgress(current: nat, total: nat): (line: ProgressLine)
    requires current < U32 && total < U32
    ensures line == Blank <==> current == 0 && total == 0
    ensures line.Scanned? <==> total == 0 && current != 0
    ensures line.Scanned? ==> line.dirs == current
    ensures line.Bar? ==> line.filled + line.empty == BarWidth && line.percent < U32
  {
    if current == 0 && total == 0 then Blank
    else if total == 0 then Scanned(current)
    else BarFor((current * 100) % U32 / total)
  }

  /** The bar for a percentage; past 102% the empty part would be negative. */
  function BarFor(percent: nat): (line: ProgressLine)
    ensures line.Underflow? <==> percent >= 103
    ensures line.Bar? ==> line.percent == percent && line.filled + line.empty == BarWidth
  {
    var filled := percent * BarWidth / 100;
    if filled > BarWidth then Underflow else Bar(percent, filled, BarWidth - filled)
  }

  /** While the product fits in 32 bits and the count has not passed the
      total, the bar is drawn: at most 100%, full exactly when the count
      reaches the total. */
  lemma BarInRange(current: nat, total: nat)
    requires 0 < total < U32 && current <= total && current * 100 < U32
    ensures var line := DisplayProgress(current, total);
      line.Bar? && line.percent <= 100 &&
      (line.percent == 100 <==> current == total) &&
      (line.filled == BarWidth <==> current == total)
  {
    assert (current * 100) % U32 == current * 100;
    Percent(current, total);
  }

  /** The percentage of a count up to the total is at most 100, and 100
      exactly at the total; its bar is full exactly then. */
  lemma Percent(current: nat, total: nat)
    requires 0 < total && current <= total
    ensures var line := BarFor(current * 100 / total);
      line.Bar? && line.percent <= 100 &&
      (line.percent == 100 <==> current == total) &&
      (line.filled == BarWidth <==> current == total)
  {
    var p := current * 100 / total;
    if current < total {
      assert current * 100 < 100 * total;
      DivBelow(current * 100, total, 100);
    } else {
      DivExact(100, total);
    }
    FullBar(p);
  }

  /** Only 100% (among the percentages up to 100) fills the whole bar. */
  lemma FullBar(p: nat)
    requires p <= 100
    ensures BarFor(p).Bar? && (BarFor(p).filled == BarWidth <==> p == 100)
  {
  }

  lemma DivBelow(x: nat, d: nat, m: nat)
    requires 0 < d && x < m * d
    ensures x / d < m
  {
    if x / d >= m {
      MulMono(m, x / d, d);
    }
  }

  lemma DivExact(k: nat, d: nat)
    requires 0 < d
    ensures k * d / d == k
  {
    DivUnique(k * d, d, k, 0);
  }

  /** Euclidean division has one quotient and remainder. */
  lemma DivUnique(x: nat, d: nat, q: nat, r: nat)
    requires 0 < d && r < d && x == q * d + r
    ensures x / d == q
  {
    var q' := x / d;
    assert x == q' * d + x % d;
    MulGap(q', q, d);
    MulGap(q, q', d);
  }

  lemma MulGap(a: nat, b: nat, d: nat)
    ensures a < b ==> a * d + d <= b * d
  {
    if a < b {
      assert (a + 1) * d == a * d + d;
      MulMono(a + 1, b, d);
    }
  }

  lemma MulMono(a: nat, b: nat, c: nat)
    requires a <= b
    ensures a * c <= b * c
  {
  }

  /** The subtraction underflows exactly when the percentage reaches 103,
      so a count somewhat over the total still draws a full bar. */
  lemma UnderflowIff(current: nat, total: nat)
    requires current < U32 && total < U32
    ensures DisplayProgress(current, total) == Underflow <==> total > 0 && (current * 100) % U32 / total >= 103
  {
  }

  /** A count one past a total of 100 is not rejected: it draws 101% as a full bar. */
  lemma OverTotalDrawsFullBar()
    ensures DisplayProgress(101, 100) == Bar(101, 40, 0)
  {
    assert (101 * 100) % U32 == 10100;
  }

  /** As written, a finished count of 42949673 draws 0%: the product wraps. */
  lemma WrappedProductShowsZero()
    ensures DisplayProgress(42949673, 42949673) == Bar(0, 0, 40)
  {
    assert 42949673 * 100 == U32 + 4;
    assert (42949673 * 100) % U32 == 4;
  }

  /** The progress line with the product computed without wrap-around. */
  function DisplayProgressWide(current: nat, total: nat): (line: ProgressLine)
    requires current < U32 && total < U32
    ensures line == Blank <==> current == 0 && total == 0
    ensures line.Scanned? <==> total == 0 && current != 0
    ensures line.Scanned? ==> line.dirs == current
  {
    if current == 0 && total == 0 then Blank
    else if total == 0 then Scanned(current)
    else BarFor(current * 100 / total)
  }

  /** With the wide product every count up to the total draws a bar of at
      most 100%, full exactly when the count reaches the total. */
  lemma WideBarInRange(current: nat, total: nat)
    requires 0 < total < U32 && current <= total
    ensures var line := DisplayProgressWide(current, total);
      line.Bar? && line.percent <= 100 &&
      (line.percent == 100 <==> current == total) &&
      (line.filled == BarWidth <==> current == total)
  {
    Percent(current, total);
  }
}
