/** The operating-system summary: host name, OS name, bitness, proxy
    variables and the kernel version of each platform. What the OS reports
    (the host name, `os_info`, the environment, `/proc/version`, `uname`,
    `RtlGetVersion`) comes in as parameters. */
module SysOs {
  import opened Wrappers
  import opened Strings
  import opened NetTypes

  /** `hostname`: the name when it can be read and is valid Unicode,
      "unknown" otherwise. */
  function Hostname(name: Option<string>): (h: string)
    ensures name.Some? ==> h == name.value
    ensures name.None? ==> h == "unknown"
  {
    name.UnwrapOr("unknown")
  }

  /** The OS types of `os_info`, as far as the model tells them apart: macOS,
      and any other type with the text it displays as. */
  datatype OsType = Macos | OtherOs(display: string)

  /** `normalize_os_name` */
  function NormalizeOsName(t: OsType): (s: string)
    ensures t.Macos? ==> s == "macOS"
    ensures t.OtherOs? ==> s == t.display
  {
    match t
    case Macos => "macOS"
    case OtherOs(d) => d
  }

  /** The bitness text of a build for the given word size in bits. */
  function Bitness(wordBits: nat): (s: string)
    ensures s == "64-bit" <==> wordBits == 64
    ensures s in {"64-bit", "32-bit"}
  {
    if wordBits == 64 then "64-bit" else "32-bit"
  }

  /** The process environment: the variables that are set and valid
      Unicode. */
  type Env = map<string, string>

  /** `collect_proxy_env::pick`: the lower-case variable if it is set, the
      upper-case one otherwise; a whitespace-only value counts as none. */
  function Pick(env: Env, key: string): (r: Option<string>)
    ensures r.Some? ==> !IsBlank(r.value)
    ensures AsciiLower(key) in env ==>
              r == (if IsBlank(env[AsciiLower(key)]) then None else Some(env[AsciiLower(key)]))
    ensures AsciiLower(key) !in env && AsciiUpper(key) in env ==>
              r == (if IsBlank(env[AsciiUpper(key)]) then None else Some(env[AsciiUpper(key)]))
    ensures AsciiLower(key) !in env && AsciiUpper(key) !in env ==> r.None?
  {
    var v := if AsciiLower(key) in env then Some(env[AsciiLower(key)])
             else if AsciiUpper(key) in env then Some(env[AsciiUpper(key)])
             else None;
    if v.Some? && !IsBlank(v.value) then v else None
  }

  /** A blank lower-case variable hides a usable upper-case one. */
  lemma BlankLowerHidesUpper(env: Env, key: string)
    requires AsciiLower(key) in env && IsBlank(env[AsciiLower(key)])
    ensures Pick(env, key).None?
  {
  }

  /** The key's case does not matter: asking for `HTTP_PROXY` or `http_proxy`
      gives the same answer. */
  lemma PickIgnoresKeyCase(env: Env, key: string)
    ensures Pick(env, AsciiUpper(key)) == Pick(env, key)
    ensures Pick(env, AsciiLower(key)) == Pick(env, key)
  {
    CaseMappingsAbsorb(key);
  }

  /** `ProxyEnv` */
  datatype ProxyEnv = ProxyEnv(http: Option<string>, https: Option<string>, all: Option<string>,
                               noProxy: Option<string>)

  /** `collect_proxy_env` */
  function CollectProxyEnv(env: Env): (p: ProxyEnv)
    ensures p.http == Pick(env, "http_proxy") && p.https == Pick(env, "https_proxy")
    ensures p.all == Pick(env, "all_proxy") && p.noProxy == Pick(env, "no_proxy")
  {
    ProxyEnv(Pick(env, "http_proxy"), Pick(env, "https_proxy"), Pick(env, "all_proxy"), Pick(env, "no_proxy"))
  }

  /** Linux `kernel_version`: the first three words of `/proc/version`
      joined by single spaces; nothing when the file cannot be read or has
      fewer than three words. */
  function LinuxKernelVersion(procVersion: Option<string>): (r: Option<string>)
    ensures r.Some? <==> procVersion.Some? && |SplitWhitespace(procVersion.value)| >= 3
    ensures r.Some? ==> SplitWhitespace(r.value) == SplitWhitespace(procVersion.value)[..3]
    ensures r.Some? ==> r.value == Join(SplitWhitespace(procVersion.value)[..3], ' ')
  {
    if procVersion.None? then None
    else
      var parts := SplitWhitespace(procVersion.value);
      if |parts| >= 3 then
        SplitWhitespacePieces(procVersion.value);
        SplitWhitespaceJoin(parts[..3]);
        assert parts[..3] == [parts[0], parts[1], parts[2]];
        Some(Join([parts[0], parts[1], parts[2]], ' '))
      else None
  }

  /** A version line made of words keeps exactly its first three. */
  lemma LinuxKernelVersionOfWords(words: seq<string>)
    requires |words| >= 3
    requires forall i :: 0 <= i < |words| ==> words[i] != "" && NoWhitespace(words[i])
    ensures LinuxKernelVersion(Some(Join(words, ' '))) == Some(Join(words[..3], ' '))
  {
    var line := Join(words, ' ');
    SplitWhitespaceJoin(words);
    assert SplitWhitespace(line) == words;
    var first := [words[0], words[1], words[2]];
    assert first == words[..3];
    assert LinuxKernelVersion(Some(line)) == Some(Join(first, ' '));
  }

  /** The index of the first non-whitespace character at or after `i`, or
      the length when there is none. */
  function FirstNonWhitespace(s: string, i: nat): (k: nat)
    requires i <= |s|
    ensures i <= k <= |s| && (k < |s| ==> !IsWhitespace(s[k]))
    ensures forall m :: i <= m < k ==> IsWhitespace(s[m])
    decreases |s| - i
  {
    if i < |s| && IsWhitespace(s[i]) then FirstNonWhitespace(s, i + 1) else i
  }

  /** The index just past the last non-whitespace character before `j`, or
      zero when there is none. */
  function EndNonWhitespace(s: string, j: nat): (k: nat)
    requires j <= |s|
    ensures k <= j && (k > 0 ==> !IsWhitespace(s[k - 1]))
    ensures forall m :: k <= m < j ==> IsWhitespace(s[m])
  {
    if j > 0 && IsWhitespace(s[j - 1]) then EndNonWhitespace(s, j - 1) else j
  }

  /** `trim`: leading and trailing whitespace removed. The result is empty
      exactly when the text is blank; otherwise it is the slice between the
      first and the last non-whitespace character. */
  function Trim(s: string): (t: string)
    ensures t == [] <==> IsBlank(s)
    ensures t != [] ==> FirstNonWhitespace(s, 0) < EndNonWhitespace(s, |s|)
                        && t == s[FirstNonWhitespace(s, 0)..EndNonWhitespace(s, |s|)]
                        && !IsWhitespace(t[0]) && !IsWhitespace(t[|t| - 1])
  {
    var a := FirstNonWhitespace(s, 0);
    var b := EndNonWhitespace(s, |s|);
    if a < b then s[a..b] else []
  }

  /** The first piece of `split`: a prefix without the separator, ended by
      the separator or by the end of the text. */
  lemma {:induction false} SplitFirstPiece(s: string, sep: char)
    ensures sep !in Split(s, sep)[0] && StartsWith(s, Split(s, sep)[0])
    ensures |Split(s, sep)[0]| < |s| ==> s[|Split(s, sep)[0]|] == sep
    decreases |s|
  {
    if |s| > 0 && s[0] != sep {
      SplitFirstPiece(s[1..], sep);
      var p := Split(s[1..], sep)[0];
      assert Split(s, sep)[0] == [s[0]] + p;
      assert s[..|p| + 1] == [s[0]] + s[1..][..|p|];
    }
  }

  /** macOS `kernel_version`: the `uname` version up to its first ':',
      trimmed; nothing when `uname` fails. */
  function MacosKernelVersion(unameVersion: Option<string>): (r: Option<string>)
    ensures r.Some? <==> unameVersion.Some?
  {
    match unameVersion
    case None => None
    case Some(ver) =>
      Some(Trim(Split(ver, ':')[0]))
  }

  /** The macOS text is a slice of the `uname` version before its first
      ':', with no whitespace at either end. */
  lemma MacosKernelVersionSlice(ver: string)
    ensures var v := MacosKernelVersion(Some(ver)).value;
            ':' !in v && (v == [] || (!IsWhitespace(v[0]) && !IsWhitespace(v[|v| - 1])))
            && exists i, j :: 0 <= i <= j <= |ver| && v == ver[i..j]
  {
    var short := Split(ver, ':')[0];
    SplitFirstPiece(ver, ':');
    TrimOfPrefix(ver, short);
  }

  /** Trimming a prefix of a text gives a slice of the text, made of the
      prefix's characters. */
  lemma TrimOfPrefix(s: string, p: string)
    requires StartsWith(s, p)
    ensures exists i, j :: 0 <= i <= j <= |s| && Trim(p) == s[i..j]
    ensures forall c :: c in Trim(p) ==> c in p
  {
    var v := Trim(p);
    if v == [] {
      assert v == s[0..0];
    } else {
      var i, j := FirstNonWhitespace(p, 0), EndNonWhitespace(p, |p|);
      assert v == p[i..j] == s[i..j];
    }
  }

  /** Windows `kernel_version`: from the version numbers `RtlGetVersion`
      reports, or nothing when it fails. */
  function WindowsKernelVersion(rtl: Option<(U32, U32, U32)>): (r: Option<string>)
    ensures r.Some? <==> rtl.Some?
  {
    match rtl
    case None => None
    case Some((major, minor, build)) =>
      Some(WINDOWS_KERNEL_PREFIX + Join([DecimalString(major), DecimalString(minor), DecimalString(build)], '.'))
  }

  const WINDOWS_KERNEL_PREFIX: string := "Windows NT Kernel "

  /** The three numbers read back from the Windows text. */
  lemma WindowsKernelVersionRoundTrip(major: U32, minor: U32, build: U32)
    ensures var v := WindowsKernelVersion(Some((major, minor, build))).value;
            StartsWith(v, WINDOWS_KERNEL_PREFIX)
            && var parts := Split(v[|WINDOWS_KERNEL_PREFIX|..], '.');
               |parts| == 3
               && (forall i :: 0 <= i < 3 ==> forall j :: 0 <= j < |parts[i]| ==> '0' <= parts[i][j] <= '9')
               && DecimalValue(parts[0]) == major && DecimalValue(parts[1]) == minor
               && DecimalValue(parts[2]) == build
  {
    var parts := [DecimalString(major), DecimalString(minor), DecimalString(build)];
    var v := WindowsKernelVersion(Some((major, minor, build))).value;
    assert v == WINDOWS_KERNEL_PREFIX + Join(parts, '.');
    assert v[|WINDOWS_KERNEL_PREFIX|..] == Join(parts, '.');
    assert v[..|WINDOWS_KERNEL_PREFIX|] == WINDOWS_KERNEL_PREFIX;
    forall i | 0 <= i < 3
      ensures '.' !in parts[i]
    {
      assert forall j :: 0 <= j < |parts[i]| ==> '0' <= parts[i][j] <= '9';
    }
    SplitJoin(parts, '.');
    DecimalRoundTrip(major);
    DecimalRoundTrip(minor);
    DecimalRoundTrip(build);
  }

  /** Where `kernel_version` finds its text on each platform. */
  datatype KernelSource =
    | LinuxProc(procVersion: Option<string>)
    | MacosUname(unameVersion: Option<string>)
    | WindowsRtl(rtl: Option<(U32, U32, U32)>)
    | OtherPlatform

  function KernelVersion(src: KernelSource): (r: Option<string>)
    ensures src.OtherPlatform? ==> r.None?
    ensures src.LinuxProc? ==> r == LinuxKernelVersion(src.procVersion)
    ensures src.MacosUname? ==> r == MacosKernelVersion(src.unameVersion)
    ensures src.WindowsRtl? ==> r == WindowsKernelVersion(src.rtl)
  {
    match src
    case LinuxProc(p) => LinuxKernelVersion(p)
    case MacosUname(u) => MacosKernelVersion(u)
    case WindowsRtl(w) => WindowsKernelVersion(w)
    case OtherPlatform => None
  }

  /** What `os_info::get` reports. */
  datatype OsInfo = OsInfo(osType: OsType, version: string, edition: Option<string>, codename: Option<string>)

  /** `SysInfo` */
  datatype SysInfo = SysInfo(hostname: string, osType: string, osVersion: string, kernelVersion: Option<string>,
                             edition: string, codename: string, bitness: string, architecture: string,
                             proxy: ProxyEnv)

  /** `system_info` */
  function SystemInfo(name: Option<string>, info: OsInfo, wordBits: nat, arch: string, env: Env,
                      kernel: KernelSource): (s: SysInfo)
    ensures s.hostname == Hostname(name) && s.osType == NormalizeOsName(info.osType)
    ensures s.osVersion == info.version
    ensures s.edition == info.edition.UnwrapOr("unknown") && s.codename == info.codename.UnwrapOr("unknown")
    ensures s.bitness == Bitness(wordBits) && s.architecture == arch
    ensures s.proxy == CollectProxyEnv(env) && s.kernelVersion == KernelVersion(kernel)
  {
    SysInfo(Hostname(name), NormalizeOsName(info.osType), info.version, KernelVersion(kernel),
            info.edition.UnwrapOr("unknown"), info.codename.UnwrapOr("unknown"), Bitness(wordBits),
            arch, CollectProxyEnv(env))
  }
}
