/** `GetNuGetCache`: the directory where the package manager keeps its
    downloaded packages, chosen by platform and environment. */
module CacheLocator {
  import opened Paths
  import opened Errors

  /** `System.PlatformID`. */
  datatype PlatformId = Win32S | Win32Windows | Win32NT | WinCE | Unix | Xbox | MacOSX | Other

  const XdgCacheHome: string := "XDG_CACHE_HOME"
  const Home: string := "HOME"

  /** `!string.IsNullOrEmpty(Environment.GetEnvironmentVariable(key))`; an
      unset variable is a missing key. */
  predicate IsSet(env: map<string, string>, key: string) {
    key in env && env[key] != ""
  }

  /** The local function `unix`. */
  function UnixCache(env: map<string, string>): (r: Result<Path>)
    ensures r.Failure? <==> !IsSet(env, XdgCacheHome) && !IsSet(env, Home)
    ensures r.Failure? ==> r.error == PlatformNotSupported
    ensures r.Success? ==> |r.value| > 0 && r.value[|r.value| - 1] == "NuGetPackages"
  {
    if IsSet(env, XdgCacheHome) then Success(Parse(env[XdgCacheHome]) + ["NuGetPackages"])
    else if IsSet(env, Home) then Success(Parse(env[Home]) + [".cache", "NuGetPackages"])
    else Failure(PlatformNotSupported)
  }

  /** `GetNuGetCache`; `userProfile` is the user-profile special folder. */
  function GetNuGetCache(platform: PlatformId, env: map<string, string>, userProfile: string): (r: Result<Path>)
    ensures r.Failure? ==> r.error == PlatformNotSupported
    ensures r.Success? <==>
      platform == Win32NT || ((platform == Unix || platform == MacOSX) && (IsSet(env, XdgCacheHome) || IsSet(env, Home)))
  {
    match platform
    case Win32NT => Success(Parse(userProfile) + [".nuget", "packages"])
    case MacOSX => UnixCache(env)
    case Unix => UnixCache(env)
    case _ => Failure(PlatformNotSupported)
  }

  /** The string form of the chosen root is the `Path.Combine` of the
      variable (or profile folder) with the fixed tail. */
  lemma CacheRootString(platform: PlatformId, env: map<string, string>, userProfile: string)
    ensures GetNuGetCache(MacOSX, env, userProfile) == GetNuGetCache(Unix, env, userProfile)
    ensures platform == Win32NT ==>
      Render(GetNuGetCache(platform, env, userProfile).value)
        == (if userProfile == "" then "" else userProfile + [Sep]) + ".nuget" + [Sep] + "packages"
    ensures (platform == Unix || platform == MacOSX) && IsSet(env, XdgCacheHome) ==>
      Render(GetNuGetCache(platform, env, userProfile).value) == env[XdgCacheHome] + [Sep] + "NuGetPackages"
    ensures (platform == Unix || platform == MacOSX) && !IsSet(env, XdgCacheHome) && IsSet(env, Home) ==>
      Render(GetNuGetCache(platform, env, userProfile).value) == env[Home] + [Sep] + ".cache" + [Sep] + "NuGetPackages"
  {
    if platform == Win32NT {
      var p := Parse(userProfile);
      RenderParse(userProfile);
      if userProfile == "" {
        assert p + [".nuget", "packages"] == [".nuget", "packages"];
      } else {
        RenderSnoc(p, ".nuget");
        assert p + [".nuget", "packages"] == (p + [".nuget"]) + ["packages"];
        RenderSnoc(p + [".nuget"], "packages");
      }
    } else if (platform == Unix || platform == MacOSX) && IsSet(env, XdgCacheHome) {
      var p := Parse(env[XdgCacheHome]);
      RenderParse(env[XdgCacheHome]);
      RenderSnoc(p, "NuGetPackages");
    } else if (platform == Unix || platform == MacOSX) && IsSet(env, Home) {
      var p := Parse(env[Home]);
      RenderParse(env[Home]);
      RenderSnoc(p, ".cache");
      assert p + [".cache", "NuGetPackages"] == (p + [".cache"]) + ["NuGetPackages"];
      RenderSnoc(p + [".cache"], "NuGetPackages");
    }
  }
}
