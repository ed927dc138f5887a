/** `getPlatformAsset` (src/index.js:43-62): the release asset to download for the
    runner's operating system (`os.platform()`), processor (`os.arch()`) and tool
    version. */
module Platform {
  import opened Wrappers

  /** The combinations a release asset exists for. */
  predicate IsSupported(platform: string, arch: string) {
    platform == "linux" || platform == "win32" || (platform == "darwin" && arch == "arm64")
  }

  function GetPlatformAsset(platform: string, arch: string, version: string): (r: Result<string>)
    ensures r.Ok? <==> IsSupported(platform, arch)
  {
    if platform == "linux" then
      if arch == "arm64" then Ok("structuralens-linux-arm64-" + version + ".tar.gz")
      else Ok("structuralens-linux-x64-" + version + ".tar.gz")
    else if platform == "darwin" then
      if arch == "arm64" then Ok("structuralens-macos-arm64-" + version + ".tar.gz")
      else Err("Unsupported macOS architecture: " + arch)
    else if platform == "win32" then Ok("structuralens-windows-x64-" + version + ".zip")
    else Err("Unsupported platform: " + platform + " " + arch)
  }

  /** The build a supported combination gets. */
  function Target(platform: string, arch: string): string
    requires IsSupported(platform, arch)
  {
    if platform == "linux" then (if arch == "arm64" then "linux-arm64" else "linux-x64")
    else if platform == "darwin" then "macos-arm64"
    else "windows-x64"
  }

  /** Windows builds are ZIP archives, the others gzipped tarballs. */
  function Extension(platform: string): string {
    if platform == "win32" then ".zip" else ".tar.gz"
  }

  /** Reading the parts of `prefix + target + "-" + version + ext` back. */
  lemma {:induction false} NameParts(prefix: string, target: string, version: string, ext: string)
    ensures var name := prefix + target + "-" + version + ext;
      && |name| == |prefix| + |target| + 1 + |version| + |ext|
      && name[..|prefix|] == prefix
      && name[|prefix|..|prefix| + |target|] == target
      && name[|prefix| + |target|] == '-'
      && name[|prefix| + |target| + 1..|prefix| + |target| + 1 + |version|] == version
      && name[|prefix| + |target| + 1 + |version|..] == ext
  {
  }

  /** Every supported asset is named `structuralens-<target>-<version><extension>`. */
  lemma AssetName(platform: string, arch: string, version: string)
    requires IsSupported(platform, arch)
    ensures GetPlatformAsset(platform, arch, version).value
      == "structuralens-" + Target(platform, arch) + "-" + version + Extension(platform)
  {
    if platform == "linux" {
      if arch == "arm64" {
        assert "structuralens-linux-arm64-" == "structuralens-" + "linux-arm64" + "-";
      } else {
        assert "structuralens-linux-x64-" == "structuralens-" + "linux-x64" + "-";
      }
    } else if platform == "darwin" {
      assert "structuralens-macos-arm64-" == "structuralens-" + "macos-arm64" + "-";
    } else {
      assert "structuralens-windows-x64-" == "structuralens-" + "windows-x64" + "-";
    }
  }

  /** Platform mapping: the asset is `structuralens-<target>-<version><extension>`, from
      which the target and the version can be read back. */
  lemma AssetNameParts(platform: string, arch: string, version: string)
    requires IsSupported(platform, arch)
    ensures var name := GetPlatformAsset(platform, arch, version).value;
      var target := Target(platform, arch);
      var ext := Extension(platform);
      && |name| == 15 + |target| + |version| + |ext|
      && name[..14] == "structuralens-"
      && name[14..14 + |target|] == target
      && name[15 + |target|..15 + |target| + |version|] == version
      && name[15 + |target| + |version|..] == ext
  {
    AssetName(platform, arch, version);
    NameParts("structuralens-", Target(platform, arch), version, Extension(platform));
  }

  /** Different builds never share an asset name for the same version. */
  lemma AssetNamesDistinct(p1: string, a1: string, p2: string, a2: string, version: string)
    requires GetPlatformAsset(p1, a1, version).Ok? && GetPlatformAsset(p2, a2, version).Ok?
    requires GetPlatformAsset(p1, a1, version) == GetPlatformAsset(p2, a2, version)
    ensures Target(p1, a1) == Target(p2, a2)
  {
    var name := GetPlatformAsset(p1, a1, version).value;
    AssetNameParts(p1, a1, version);
    AssetNameParts(p2, a2, version);
    var t1, t2 := Target(p1, a1), Target(p2, a2);
    // the lengths of the targets and extensions tell linux-x64 from the others
    assert |t1| == |t2|;
    assert name[14..14 + |t1|] == t1 && name[14..14 + |t2|] == t2;
  }

  /** The archive is a ZIP, extracted with `extractZip` (src/index.js:103), exactly on Windows. */
  lemma ZipExactlyOnWindows(platform: string, arch: string, version: string)
    requires GetPlatformAsset(platform, arch, version).Ok?
    ensures var name := GetPlatformAsset(platform, arch, version).value;
      (|name| >= 4 && name[|name| - 4..] == ".zip") <==> platform == "win32"
  {
    var name := GetPlatformAsset(platform, arch, version).value;
    AssetNameParts(platform, arch, version);
    if platform != "win32" {
      assert name[|name| - 7..] == ".tar.gz";
      assert name[|name| - 4..] == name[|name| - 7..][3..];
    }
  }

  /** The errors: an Intel Mac and any other operating system are refused, with the
      architecture (and platform) in the message. */
  lemma UnsupportedMessages(platform: string, arch: string, version: string)
    ensures platform == "darwin" && arch != "arm64" ==>
      GetPlatformAsset(platform, arch, version) == Err("Unsupported macOS architecture: " + arch)
    ensures platform != "linux" && platform != "darwin" && platform != "win32" ==>
      GetPlatformAsset(platform, arch, version) == Err("Unsupported platform: " + platform + " " + arch)
  {
  }
}
