/** The package-source list of the package manager and the three-way
    registration decision of `FindOrCreateLocalNuGetRepository`, with the
    sanitizer that prepares the directory argument of `nuget add source`. */
module Registry {
  import opened Errors
  import opened Text
  import opened Paths

  /** One configured package source. */
  datatype Source = Source(name: string, location: string, enabled: bool)

  /** `LoadPackageSources().FirstOrDefault(x => x.Name == name)`: the index
      of the first source with exactly that name. */
  function Lookup(sources: seq<Source>, name: string): (r: Option<nat>)
    ensures r.Some? ==> r.value < |sources| && sources[r.value].name == name
    ensures r.Some? ==> forall j :: 0 <= j < r.value ==> sources[j].name != name
    ensures r.None? <==> forall j :: 0 <= j < |sources| ==> sources[j].name != name
  {
    if sources == [] then None
    else if sources[0].name == name then Some(0)
    else match Lookup(sources[1..], name)
      case None => None
      case Some(k) => Some(k + 1)
  }

  /** The three branches of the registration. */
  datatype Registration = Create | Enable(index: nat) | Keep

  function Decide(sources: seq<Source>, name: string): Registration {
    match Lookup(sources, name)
    case None => Create
    case Some(i) => if sources[i].enabled then Keep else Enable(i)
  }

  /** `EnablePackageSource`: the enabled flag of entry `i` becomes true and
      nothing else changes. */
  function EnableAt(sources: seq<Source>, i: nat): (r: seq<Source>)
    requires i < |sources|
    ensures |r| == |sources| && r[i].enabled
    ensures r[i].name == sources[i].name && r[i].location == sources[i].location
    ensures forall j :: 0 <= j < |r| && j != i ==> r[j] == sources[j]
  {
    sources[i := sources[i].(enabled := true)]
  }

  /** ASSUMPTION about the external tool, not part of the driver: a
      successful `dotnet nuget add source "<location>" --name "<name>"`
      appends one enabled source. */
  function AddedByCommand(sources: seq<Source>, name: string, location: string): seq<Source> {
    sources + [Source(name, location, true)]
  }

  /** What the driver itself does to the source list: enable a disabled
      source; a missing one is left to the external command. */
  function EnabledInPlace(sources: seq<Source>, name: string): seq<Source> {
    match Decide(sources, name)
    case Enable(i) => EnableAt(sources, i)
    case _ => sources
  }

  /** The source list after one registration, the external command's effect
      included under the assumption above. */
  function Registered(sources: seq<Source>, name: string, location: string): seq<Source> {
    if Decide(sources, name).Create? then AddedByCommand(sources, name, location)
    else EnabledInPlace(sources, name)
  }

  /** How many sources carry the name. */
  function CountNamed(sources: seq<Source>, name: string): nat {
    if sources == [] then 0
    else CountNamed(sources[..|sources| - 1], name) + (if sources[|sources| - 1].name == name then 1 else 0)
  }

  lemma {:induction false} CountNamedZero(sources: seq<Source>, name: string)
    ensures CountNamed(sources, name) == 0 <==> forall j :: 0 <= j < |sources| ==> sources[j].name != name
  {
    if sources != [] {
      CountNamedZero(sources[..|sources| - 1], name);
    }
  }

  /** Enabling a source does not change how many sources carry a name. */
  lemma {:induction false} CountNamedEnable(sources: seq<Source>, i: nat, name: string)
    requires i < |sources|
    ensures CountNamed(EnableAt(sources, i), name) == CountNamed(sources, name)
  {
    var r := EnableAt(sources, i);
    var n := |sources|;
    if i < n - 1 {
      assert r[..n - 1] == EnableAt(sources[..n - 1], i);
      CountNamedEnable(sources[..n - 1], i, name);
    } else {
      assert r[..n - 1] == sources[..n - 1];
    }
  }

  /** After a registration the source is present and enabled, and it is the
      first source with that name; its location is kept when it existed. */
  lemma RegisteredEnabled(sources: seq<Source>, name: string, location: string)
    ensures var after := Registered(sources, name, location);
      && Lookup(after, name).Some?
      && after[Lookup(after, name).value].enabled
      && (Lookup(sources, name).Some? ==>
            Lookup(after, name) == Lookup(sources, name)
            && after[Lookup(after, name).value].location == sources[Lookup(sources, name).value].location)
  {
    var after := Registered(sources, name, location);
    match Lookup(sources, name)
    case None =>
      assert after[|sources|].name == name;
      assert Lookup(after, name) == Some(|sources|);
    case Some(i) =>
      assert after[i].name == name;
      assert forall j :: 0 <= j < i ==> after[j].name != name;
      assert Lookup(after, name) == Some(i);
  }

  /** Idempotence: a second registration takes the "present and enabled"
      branch, so it issues no command and changes nothing. */
  lemma RegistrationIdempotent(sources: seq<Source>, name: string, location: string)
    ensures Decide(Registered(sources, name, location), name) == Keep
    ensures Registered(Registered(sources, name, location), name, location) == Registered(sources, name, location)
  {
    RegisteredEnabled(sources, name, location);
  }

  /** Registering never duplicates: starting from at most one source with the
      name there is exactly one afterwards. */
  lemma RegistrationUnique(sources: seq<Source>, name: string, location: string)
    requires CountNamed(sources, name) <= 1
    ensures CountNamed(Registered(sources, name, location), name) == 1
  {
    CountNamedZero(sources, name);
    var after := Registered(sources, name, location);
    match Decide(sources, name)
    case Create =>
      assert after[..|after| - 1] == sources;
    case Enable(i) =>
      CountNamedEnable(sources, i, name);
    case Keep =>
  }

  // ---- the sanitizer of the `nuget add source` directory argument ----

  const Backslash: char := '\\'

  /** Length of the run of backslashes that ends the string. */
  function TrailingBackslashes(s: string): (n: nat)
    ensures n <= |s|
  {
    if s == [] || s[|s| - 1] != Backslash then 0
    else TrailingBackslashes(s[..|s| - 1]) + 1
  }

  /** The local function `getSanitizedRepoDir` as written: a path ending in
      two backslashes is kept, one ending in a single backslash gets one more. */
  function SanitizeAsWritten(s: string): (r: string)
    ensures r == s || r == s + [Backslash]
  {
    if EndsWith(s, "\\\\") then s
    else if EndsWith(s, "\\") then s + "\\"
    else s
  }

  /** The sanitizer as written is idempotent. */
  lemma SanitizeAsWrittenIdempotent(s: string)
    ensures SanitizeAsWritten(SanitizeAsWritten(s)) == SanitizeAsWritten(s)
  {
    if !EndsWith(s, "\\\\") && EndsWith(s, "\\") {
      var r := s + "\\";
      assert r[|r| - 2..] == "\\\\";
    }
  }

  /** As written, a path ending in THREE backslashes is left alone, so its
      last backslash still escapes the closing quote of the argument. */
  lemma SanitizeAsWrittenLeavesOddRun()
    ensures SanitizeAsWritten("C:\\repo\\\\\\") == "C:\\repo\\\\\\"
    ensures TrailingBackslashes(SanitizeAsWritten("C:\\repo\\\\\\")) == 3
  {
    var s0 := "C:\\repo";
    var s1, s2, s3 := s0 + "\\", s0 + "\\\\", s0 + "\\\\\\";
    assert s1[..|s1| - 1] == s0 && s2[..|s2| - 1] == s1 && s3[..|s3| - 1] == s2;
    assert TrailingBackslashes(s0) == 0;
    assert s1[|s1| - 1] == s2[|s2| - 1] == s3[|s3| - 1] == Backslash;
    assert TrailingBackslashes(s1) == 1;
    assert TrailingBackslashes(s2) == 2;
    assert TrailingBackslashes(s3) == 3;
    assert s3 == "C:\\repo\\\\\\";
    assert s3[|s3| - 2..] == "\\\\";
  }

  /** The intended sanitizer: add one backslash exactly when the trailing
      run is odd, so that the closing quote is never escaped. */
  function Sanitize(s: string): (r: string)
    ensures r == s || r == s + [Backslash]
    ensures TrailingBackslashes(r) % 2 == 0
    ensures r == s <==> TrailingBackslashes(s) % 2 == 0
  {
    var t := s + [Backslash];
    assert t[..|t| - 1] == s;
    if TrailingBackslashes(s) % 2 == 1 then t else s
  }

  lemma SanitizeIdempotent(s: string)
    ensures Sanitize(Sanitize(s)) == Sanitize(s)
  {
  }

  /** The suffix tests of the sanitizer read the trailing run. */
  lemma EndsWithBackslashes(s: string)
    ensures EndsWith(s, "\\") <==> TrailingBackslashes(s) >= 1
    ensures EndsWith(s, "\\\\") <==> TrailingBackslashes(s) >= 2
  {
    var n := |s|;
    if n >= 1 {
      assert EndsWith(s, "\\") <==> s[n - 1] == Backslash by {
        assert s[n - 1..] == [s[n - 1]];
      }
    }
    if n >= 2 {
      assert s[..n - 1][n - 2] == s[n - 2];
      assert EndsWith(s, "\\\\") <==> s[n - 2] == Backslash && s[n - 1] == Backslash by {
        assert s[n - 2..] == [s[n - 2], s[n - 1]];
      }
    } else {
      assert !EndsWith(s, "\\\\");
      assert n == 1 && s[n - 1] == Backslash ==> s[..n - 1] == [];
    }
  }

  /** The intended sanitizer agrees with the one as written on every path
      whose trailing run of backslashes is shorter than three. */
  lemma SanitizeAgreesBelowThree(s: string)
    requires TrailingBackslashes(s) < 3
    ensures Sanitize(s) == SanitizeAsWritten(s)
  {
    EndsWithBackslashes(s);
    var t := TrailingBackslashes(s);
    if t == 1 {
      assert t % 2 == 1;
      assert Sanitize(s) == s + [Backslash];
    } else {
      assert t % 2 == 0;
      assert Sanitize(s) == s;
    }
  }

  /** The only argument the driver sanitizes is `Path.Combine(cwd, "nuget")`,
      which ends in a letter: both sanitizers return it unchanged. */
  lemma SanitizeRepoDirIsIdentity(cwd: Path)
    ensures Sanitize(Render(cwd + ["nuget"])) == Render(cwd + ["nuget"])
    ensures SanitizeAsWritten(Render(cwd + ["nuget"])) == Render(cwd + ["nuget"])
  {
    var s := Render(cwd + ["nuget"]);
    if |cwd| >= 1 {
      RenderSnoc(cwd, "nuget");
    } else {
      assert cwd + ["nuget"] == ["nuget"];
    }
    assert s[|s| - 1] == 't';
    assert TrailingBackslashes(s) == 0;
    SanitizeAgreesBelowThree(s);
  }
}
