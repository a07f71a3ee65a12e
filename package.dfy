/**
 * Installed-package enumeration and launch (`package.rs`): the parsing of
 * the `|`-separated listing the PowerShell script prints, the
 * classification of a failed run, the case-insensitive lookup, the
 * activation id handed to the activation manager, and the error texts.
 *
 * Running PowerShell and the COM activation are not part of this model:
 * their outcomes arrive as parameters.
 */
module Package {
  import opened Wrappers
  import opened Text
  import Os

  datatype InstalledPackage = InstalledPackage(name: string, displayName: string, familyName: string, appId: string)

  datatype PackageError =
    | PowerShellUnavailable(message: string)
    | PowerShellFailed(message: string)
    | WindowsError(error: Os.WinError)

  const UnavailablePrefix: string := "PowerShell unavailable: "
  const UnavailableSuffix: string := ". Try running UWP processes manually and use --pid or --name instead."
  const FailedPrefix: string := "PowerShell command failed: "
  const WindowsPrefix: string := "Windows error: "

  /** `Display for PackageError`; a Windows error shows its own `Display` text. */
  function ErrorText(e: PackageError): string
  {
    match e
    case PowerShellUnavailable(m) => UnavailablePrefix + m + UnavailableSuffix
    case PowerShellFailed(m) => FailedPrefix + m
    case WindowsError(w) => WindowsPrefix + w.text
  }

  /** The text tells the variant apart, and determines the message each
      variant wraps: the PowerShell text, or the Windows error's text. */
  lemma ErrorTextDistinguishes(e1: PackageError, e2: PackageError)
    requires ErrorText(e1) == ErrorText(e2)
    ensures e1.PowerShellUnavailable? == e2.PowerShellUnavailable?
    ensures e1.PowerShellFailed? == e2.PowerShellFailed?
    ensures e1.WindowsError? == e2.WindowsError?
    ensures !e1.WindowsError? ==> e1 == e2
    ensures e1.WindowsError? ==> e1.error.text == e2.error.text
  {
    var s := ErrorText(e1);
    assert s[0] == ErrorText(e2)[0];
    if e1.WindowsError? || e2.WindowsError? {
      assert e1.WindowsError? && e2.WindowsError?;
      assert e1.error.text == s[|WindowsPrefix|..];
    } else {
      assert s[11] == ErrorText(e2)[11];
      if e1.PowerShellUnavailable? {
        assert s[11] == 'u';
        assert e2.PowerShellUnavailable?;
        assert |e1.message| == |e2.message|;
        assert e1.message == s[|UnavailablePrefix|..|UnavailablePrefix| + |e1.message|];
      } else {
        assert s[11] == 'c';
        assert e2.PowerShellFailed?;
        assert e1.message == s[|FailedPrefix|..];
      }
    }
  }

  // ---------------------------------------------------------------------
  // Listing
  // ---------------------------------------------------------------------

  /** What running the listing script produced: either it could not be
      started, or it exited with a status, its standard output and its
      standard error (both already decoded lossily). */
  datatype CommandOutput =
    | SpawnFailed(error: Os.IoError)
    | Exited(success: bool, stdout: string, stderr: string)

  const NotInPath: string := "PowerShell is not in PATH"

  /** A failed run: PowerShell missing when the error text says so, the
      error text itself otherwise. */
  function ClassifyFailure(stderr: string): (e: PackageError)
    ensures e == PowerShellUnavailable(NotInPath) <==>
      (exists i :: OccursAt(stderr, "is not recognized", i)) || (exists i :: OccursAt(stderr, "not found", i))
    ensures e != PowerShellUnavailable(NotInPath) ==> e == PowerShellFailed(stderr)
  {
    if Contains(stderr, "is not recognized") || Contains(stderr, "not found") then PowerShellUnavailable(NotInPath)
    else PowerShellFailed(stderr)
  }

  /** One line of the listing: at least four `|`-separated fields, of which
      the first four are name, display name, family name and app id. */
  function ParseLine(line: string): Option<InstalledPackage>
  {
    var parts := Split(line, '|');
    if |parts| >= 4 then Some(InstalledPackage(parts[0], parts[1], parts[2], parts[3])) else None
  }

  /** The packages of the lines that parse, in line order. */
  function ParseLines(lines: seq<string>): seq<InstalledPackage>
  {
    if lines == [] then []
    else
      (match ParseLine(lines[0]) case Some(p) => [p] case None => []) + ParseLines(lines[1..])
  }

  /** Parsing a listing is parsing its parts: packages keep the order of
      their lines. */
  lemma {:induction false} ParseLinesConcat(a: seq<string>, b: seq<string>)
    ensures ParseLines(a + b) == ParseLines(a) + ParseLines(b)
  {
    if a != [] {
      assert (a + b)[0] == a[0] && (a + b)[1..] == a[1..] + b;
      ParseLinesConcat(a[1..], b);
    } else {
      assert a + b == b;
    }
  }

  lemma ParseLinesSnoc(lines: seq<string>, i: nat)
    requires i < |lines|
    ensures ParseLines(lines[..i + 1]) ==
      ParseLines(lines[..i]) + (match ParseLine(lines[i]) case Some(p) => [p] case None => [])
  {
    ParseLinesConcat(lines[..i], [lines[i]]);
    assert lines[..i + 1] == lines[..i] + [lines[i]];
  }

  /** At most one package per line. */
  lemma {:induction false} ParseLinesCount(lines: seq<string>)
    ensures |ParseLines(lines)| <= |lines|
  {
    if lines != [] {
      ParseLinesCount(lines[1..]);
    }
  }

  /** The line the listing script prints for a package parses back to it,
      whatever extra fields follow, as long as no field holds a `|`. */
  lemma FormatParse(p: InstalledPackage, extra: seq<string>)
    requires '|' !in p.name && '|' !in p.displayName && '|' !in p.familyName && '|' !in p.appId
    requires forall k :: 0 <= k < |extra| ==> '|' !in extra[k]
    ensures ParseLine(Join([p.name, p.displayName, p.familyName, p.appId] + extra, '|')) == Some(p)
  {
    ParseJoined([p.name, p.displayName, p.familyName, p.appId] + extra, p, extra);
  }

  /** The display name is manifest text and may hold a `|`. The listing
      line of such a package then parses with its fields shifted: the
      display name is cut at the bar, the part after the bar becomes the
      family name, and the family name becomes the app id. */
  lemma {:induction false} BarInDisplayNameShifts(p: InstalledPackage, a: string, b: string, extra: seq<string>)
    requires p.displayName == a + "|" + b
    requires '|' !in p.name && '|' !in a && '|' !in b && '|' !in p.familyName && '|' !in p.appId
    requires forall k :: 0 <= k < |extra| ==> '|' !in extra[k]
    ensures ParseLine(Join([p.name, p.displayName, p.familyName, p.appId] + extra, '|')) ==
      Some(InstalledPackage(p.name, a, b, p.familyName))
  {
    var shifted := [p.name, a, b, p.familyName, p.appId] + extra;
    JoinShifted(p.name, a, b, [p.familyName, p.appId] + extra);
    assert [p.name, a + "|" + b] + ([p.familyName, p.appId] + extra) == [p.name, p.displayName, p.familyName, p.appId] + extra;
    assert [p.name, a, b] + ([p.familyName, p.appId] + extra) == shifted;
    ParseJoined(shifted, InstalledPackage(p.name, a, b, p.familyName), [p.appId] + extra);
  }

  /** A separator inside the second field reads as a field boundary. */
  lemma {:induction false} JoinShifted(x: string, a: string, b: string, tail: seq<string>)
    requires |tail| >= 1
    ensures Join([x, a + "|" + b] + tail, '|') == Join([x, a, b] + tail, '|')
  {
    var inner := a + "|" + (b + "|" + Join(tail, '|'));
    assert Join([a + "|" + b] + tail, '|') == inner by {
      JoinCons(a + "|" + b, tail, '|');
    }
    assert Join([a] + ([b] + tail), '|') == inner by {
      JoinCons(b, tail, '|');
      JoinCons(a, [b] + tail, '|');
    }
    assert Join([x, a + "|" + b] + tail, '|') == x + "|" + inner by {
      JoinCons(x, [a + "|" + b] + tail, '|');
      assert [x, a + "|" + b] + tail == [x] + ([a + "|" + b] + tail);
    }
    assert Join([x, a, b] + tail, '|') == x + "|" + inner by {
      JoinCons(x, [a] + ([b] + tail), '|');
      assert [x, a, b] + tail == [x] + ([a] + ([b] + tail));
    }
  }

  lemma ParseJoined(fields: seq<string>, p: InstalledPackage, extra: seq<string>)
    requires fields == [p.name, p.displayName, p.familyName, p.appId] + extra
    requires '|' !in p.name && '|' !in p.displayName && '|' !in p.familyName && '|' !in p.appId
    requires forall k :: 0 <= k < |extra| ==> '|' !in extra[k]
    ensures ParseLine(Join(fields, '|')) == Some(p)
  {
    assert forall k :: 0 <= k < |fields| ==> '|' !in fields[k];
    SplitJoin(fields, '|');
  }

  /** `list_packages`: a script that cannot start means PowerShell is
      unavailable; a failed run is classified by its error text; otherwise
      every output line with at least four fields gives one package. */
  method ListPackages(out: CommandOutput) returns (r: Result<seq<InstalledPackage>, PackageError>)
    ensures out.SpawnFailed? ==> r == Err(PowerShellUnavailable(out.error))
    ensures out.Exited? && !out.success ==> r == Err(ClassifyFailure(out.stderr))
    ensures out.Exited? && out.success ==> r == Ok(ParseLines(Lines(out.stdout)))
  {
    if out.SpawnFailed? {
      return Err(PowerShellUnavailable(out.error));
    }
    if !out.success {
      return Err(ClassifyFailure(out.stderr));
    }
    var lines := Lines(out.stdout);
    var packages := [];
    var i := 0;
    while i < |lines|
      invariant 0 <= i <= |lines|
      invariant packages == ParseLines(lines[..i])
    {
      var parts := Split(lines[i], '|');
      ParseLinesSnoc(lines, i);
      if |parts| >= 4 {
        packages := packages + [InstalledPackage(parts[0], parts[1], parts[2], parts[3])];
      }
      i := i + 1;
    }
    assert lines[..i] == lines;
    r := Ok(packages);
  }

  // ---------------------------------------------------------------------
  // Lookup and launch
  // ---------------------------------------------------------------------

  /** `find_package` over the listing's outcome: a listing error is passed
      on; otherwise the first package whose lower-cased name contains the
      lower-cased query, or None. */
  function FindPackage(listing: Result<seq<InstalledPackage>, PackageError>, query: string): (r: Result<Option<InstalledPackage>, PackageError>)
    ensures listing.Err? <==> r.Err?
    ensures listing.Err? ==> r.error == listing.error
    ensures listing.Ok? ==>
      (r.value.Some? <==> exists j :: 0 <= j < |listing.value| && NameMatches(listing.value[j].name, query)) &&
      (r.value.Some? ==> exists k :: (0 <= k < |listing.value| && r.value.value == listing.value[k] &&
                                      NameMatches(listing.value[k].name, query) &&
                                      forall j :: 0 <= j < k ==> !NameMatches(listing.value[j].name, query)))
  {
    match listing
    case Err(e) => Err(e)
    case Ok(ps) =>
      var k := IndexOfMatch(ps, (p: InstalledPackage) => p.name, query);
      Ok(if k < |ps| then Some(ps[k]) else None)
  }

  /** The application user model id, `family!app`, as a NUL-terminated
      UTF-16 string. */
  function ActivationId(p: InstalledPackage): seq<Unit16>
  {
    EncodeUtf16(p.familyName + "!" + p.appId) + [0]
  }

  /** The id carries exactly one NUL, at its end, and what precedes it
      decodes back to `family!app` (given names without NUL characters). */
  lemma ActivationIdWellFormed(p: InstalledPackage)
    requires '\0' !in p.familyName && '\0' !in p.appId
    ensures var id := ActivationId(p);
      |id| >= 1 && id[|id| - 1] == 0 && 0 !in id[..|id| - 1] &&
      DecodeUtf16(id[..|id| - 1]) == Some(p.familyName + "!" + p.appId)
  {
    var s := p.familyName + "!" + p.appId;
    assert '\0' !in s;
    EncodeHasNoZero(s);
    DecodeEncode(s);
    var id := ActivationId(p);
    assert id[..|id| - 1] == EncodeUtf16(s);
  }

  /** `launch_package`: a failure to set up COM or to create the activation
      manager is a Windows error; otherwise the activation manager is asked
      to start `ActivationId(p)`, and its answer (a pid or a Windows error)
      is the result. */
  function LaunchPackage(p: InstalledPackage, setup: Option<Os.WinError>, activate: seq<Unit16> -> Result<nat, Os.WinError>): (r: Result<nat, PackageError>)
    ensures setup.Some? ==> r == Err(WindowsError(setup.value))
    ensures setup.None? && activate(ActivationId(p)).Ok? ==> r == Ok(activate(ActivationId(p)).value)
    ensures setup.None? && activate(ActivationId(p)).Err? ==> r == Err(WindowsError(activate(ActivationId(p)).error))
  {
    if setup.Some? then Err(WindowsError(setup.value))
    else
      match activate(ActivationId(p))
      case Ok(pid) => Ok(pid)
      case Err(e) => Err(WindowsError(e))
  }
}
