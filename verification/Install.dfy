/** The install manifest: a shell-style file written by one run of the installer and read by the next. */
module Install {
  import opened Model
  import opened Strings

  datatype RuntimeTarget = Docker | Host

  datatype ServiceMode = User | System

  datatype ServiceBackend = SystemdUser | SystemdSystem | LaunchAgent

  datatype InstallManifest = InstallManifest(
    sourceKind: string, sourceVersion: Option<string>, sourceGitUrl: Option<string>, sourceGitRef: Option<string>,
    binDir: string, assetsDir: string, configPath: string, dataDir: string, socketPath: string, installerPath: string,
    ployzPath: string, ployzdPath: string, gatewayPath: string, dnsPath: string, corrosionPath: string,
    runtimeTarget: RuntimeTarget, serviceMode: ServiceMode, serviceBackend: Option<ServiceBackend>)

  function TargetName(t: RuntimeTarget): string { if t.Docker? then "docker" else "host" }

  function ParseTarget(s: string): Option<RuntimeTarget> {
    if s == "docker" then Some(Docker) else if s == "host" then Some(Host) else None
  }

  function ModeName(m: ServiceMode): string { if m.User? then "user" else "system" }

  function ParseMode(s: string): Option<ServiceMode> {
    if s == "user" then Some(User) else if s == "system" then Some(System) else None
  }

  function BackendName(b: ServiceBackend): string {
    match b
    case SystemdUser => "systemd-user"
    case SystemdSystem => "systemd-system"
    case LaunchAgent => "launch-agent"
  }

  function ParseBackend(s: string): Option<ServiceBackend> {
    if s == "systemd-user" then Some(SystemdUser)
    else if s == "systemd-system" then Some(SystemdSystem)
    else if s == "launch-agent" then Some(LaunchAgent)
    else None
  }

  // ---------------------------------------------------------------------------
  // Keys
  // ---------------------------------------------------------------------------

  datatype Key = SourceKind | SourceVersion | SourceGitUrl | SourceGitRef | BinDir | AssetsDir | ConfigPath | DataDir
    | SocketPath | InstallerPath | PloyzPath | PloyzdPath | GatewayPath | DnsPath | CorrosionPath
    | TargetKey | ModeKey | BackendKey

  const KEYS: seq<Key> := [
    SourceKind, SourceVersion, SourceGitUrl, SourceGitRef, BinDir, AssetsDir, ConfigPath, DataDir, SocketPath,
    InstallerPath, PloyzPath, PloyzdPath, GatewayPath, DnsPath, CorrosionPath, TargetKey, ModeKey, BackendKey]

  function KeyName(k: Key): string {
    match k
    case SourceKind => "SOURCE_KIND"
    case SourceVersion => "SOURCE_VERSION"
    case SourceGitUrl => "SOURCE_GIT_URL"
    case SourceGitRef => "SOURCE_GIT_REF"
    case BinDir => "BIN_DIR"
    case AssetsDir => "ASSETS_DIR"
    case ConfigPath => "CONFIG_PATH"
    case DataDir => "DATA_DIR"
    case SocketPath => "SOCKET_PATH"
    case InstallerPath => "INSTALLER_PATH"
    case PloyzPath => "PLOYZ_PATH"
    case PloyzdPath => "PLOYZD_PATH"
    case GatewayPath => "PLOYZ_GATEWAY_PATH"
    case DnsPath => "PLOYZ_DNS_PATH"
    case CorrosionPath => "CORROSION_PATH"
    case TargetKey => "RUNTIME_TARGET"
    case ModeKey => "SERVICE_MODE"
    case BackendKey => "SERVICE_BACKEND"
  }

  /** The key a name stands for; names that are not keys are ignored by the reader. */
  function KeyFrom(name: string, i: nat): Option<Key>
    requires i <= |KEYS|
    decreases |KEYS| - i
  {
    if i == |KEYS| then None else if name == KeyName(KEYS[i]) then Some(KEYS[i]) else KeyFrom(name, i + 1)
  }

  function KeyFor(name: string): Option<Key> { KeyFrom(name, 0) }

  /** Length, first and last character tell the keys apart. */
  function Print3(s: string): (nat, char, char)
    requires s != ""
  {
    (|s|, s[0], s[|s| - 1])
  }

  lemma NamesDiffer(a: Key, b: Key)
    requires a != b
    ensures KeyName(a) != KeyName(b)
  {
    assert Print3(KeyName(a)) != Print3(KeyName(b));
  }

  lemma {:induction false} KeyFromFinds(k: Key, i: nat, j: nat)
    requires i <= j < |KEYS| && KEYS[j] == k
    ensures KeyFrom(KeyName(k), i).Some? && KeyName(KeyFrom(KeyName(k), i).value) == KeyName(k)
    decreases j - i
  {
    hide KeyName;
    if KeyName(KEYS[i]) != KeyName(k) { KeyFromFinds(k, i + 1, j); }
  }

  lemma KeyListed(k: Key)
    ensures k in KEYS
  {
    assert KEYS[0] == SourceKind && KEYS[1] == SourceVersion && KEYS[2] == SourceGitUrl && KEYS[3] == SourceGitRef;
    assert KEYS[4] == BinDir && KEYS[5] == AssetsDir && KEYS[6] == ConfigPath;
    assert KEYS[7] == DataDir && KEYS[8] == SocketPath;
    assert KEYS[9] == InstallerPath && KEYS[10] == PloyzPath && KEYS[11] == PloyzdPath && KEYS[12] == GatewayPath;
    assert KEYS[13] == DnsPath && KEYS[14] == CorrosionPath && KEYS[15] == TargetKey;
    assert KEYS[16] == ModeKey && KEYS[17] == BackendKey;
  }

  lemma KeyForName(k: Key)
    ensures KeyFor(KeyName(k)) == Some(k)
  {
    hide KeyName, KeyFrom;
    KeyListed(k);
    var j :| 0 <= j < |KEYS| && KEYS[j] == k;
    KeyFromFinds(k, 0, j);
    var found := KeyFrom(KeyName(k), 0).value;
    if found != k { NamesDiffer(found, k); }
  }

  // ---------------------------------------------------------------------------
  // Writing
  // ---------------------------------------------------------------------------

  const QUOTED_QUOTE: string := "'\"'\"'"

  /** Every single quote is closed, put in double quotes and opened again. */
  function Escape(s: string): string {
    if s == "" then "" else (if s[0] == '\'' then QUOTED_QUOTE else [s[0]]) + Escape(s[1..])
  }

  function SingleQuote(s: string): string { "'" + Escape(s) + "'" }

  function EnvLine(key: string, value: string): string { key + "=" + SingleQuote(value) }

  function OrEmpty(v: Option<string>): string { if v.Some? then v.value else "" }

  /** The text of a field, empty for an optional one that is not set. */
  function Field(m: InstallManifest, k: Key): string {
    match k
    case SourceKind => m.sourceKind
    case SourceVersion => OrEmpty(m.sourceVersion)
    case SourceGitUrl => OrEmpty(m.sourceGitUrl)
    case SourceGitRef => OrEmpty(m.sourceGitRef)
    case BinDir => m.binDir
    case AssetsDir => m.assetsDir
    case ConfigPath => m.configPath
    case DataDir => m.dataDir
    case SocketPath => m.socketPath
    case InstallerPath => m.installerPath
    case PloyzPath => m.ployzPath
    case PloyzdPath => m.ployzdPath
    case GatewayPath => m.gatewayPath
    case DnsPath => m.dnsPath
    case CorrosionPath => m.corrosionPath
    case TargetKey => TargetName(m.runtimeTarget)
    case ModeKey => ModeName(m.serviceMode)
    case BackendKey => if m.serviceBackend.Some? then BackendName(m.serviceBackend.value) else ""
  }

  function PrintedLine(m: InstallManifest, i: nat): string
    requires i < |KEYS|
  {
    EnvLine(KeyName(KEYS[i]), Field(m, KEYS[i]))
  }

  /** The lines from the `i`-th on, each with its newline. */
  function PrintFrom(m: InstallManifest, i: nat): string
    requires i <= |KEYS|
    decreases |KEYS| - i
  {
    if i == |KEYS| then "" else PrintedLine(m, i) + "\n" + PrintFrom(m, i + 1)
  }

  function Print(m: InstallManifest): string { PrintFrom(m, 0) }

  // ---------------------------------------------------------------------------
  // Reading
  // ---------------------------------------------------------------------------

  /** Position of the first `c`, or the length. */
  function IndexOf(s: string, c: char): (k: nat)
    ensures k <= |s| && (k < |s| ==> s[k] == c)
  {
    if s == "" || s[0] == c then 0 else 1 + IndexOf(s[1..], c)
  }

  function WithoutReturn(s: string): string {
    if s != "" && s[|s| - 1] == '\r' then s[..|s| - 1] else s
  }

  /** `str::lines`. */
  function Lines(s: string): seq<string>
    decreases |s|
  {
    var k := IndexOf(s, '\n');
    if k < |s| then [WithoutReturn(s[..k])] + Lines(s[k + 1..]) else if s == "" then [] else [s]
  }

  /** `replace` of the quoted quote by a quote: matches are taken from the left and do not overlap. */
  function Unescape(s: string): string
    decreases |s|
  {
    if |s| >= 5 && s[..5] == QUOTED_QUOTE then "'" + Unescape(s[5..])
    else if s == "" then ""
    else [s[0]] + Unescape(s[1..])
  }

  function ParseShellValue(raw: string): Option<string> {
    var t := Trim(raw);
    if |t| >= 2 && t[0] == '\'' && t[|t| - 1] == '\'' then Some(Unescape(t[1..|t| - 1]))
    else if ' ' in t then None
    else Some(t)
  }

  /** The text last read for each key. */
  type Draft = map<Key, string>

  /** A value the reader accepts for the key. */
  predicate Accepts(k: Key, value: string) {
    match k
    case TargetKey => ParseTarget(value).Some?
    case ModeKey => ParseMode(value).Some?
    case BackendKey => value == "" || ParseBackend(value).Some?
    case _ => true
  }

  function ReadLine(d: Draft, line: string): Option<Draft> {
    var t := Trim(line);
    if t == "" || t[0] == '#' then Some(d)
    else if IndexOf(t, '=') == |t| then None
    else
      var value := ParseShellValue(t[IndexOf(t, '=') + 1..]);
      var key := KeyFor(t[..IndexOf(t, '=')]);
      if value.None? then None
      else if key.None? then Some(d)
      else if Accepts(key.value, value.value) then Some(d[key.value := value.value])
      else None
  }

  function ReadLines(d: Draft, lines: seq<string>): Option<Draft>
    decreases |lines|
  {
    if lines == [] then Some(d)
    else
      var next := ReadLine(d, lines[0]);
      if next.None? then None else ReadLines(next.value, lines[1..])
  }

  function NonEmptyAt(d: Draft, k: Key): Option<string> {
    if k in d && d[k] != "" then Some(d[k]) else None
  }

  /** Every key but the optional ones has been read. */
  predicate Complete(d: Draft) {
    && SourceKind in d && BinDir in d && AssetsDir in d && ConfigPath in d && DataDir in d && SocketPath in d
    && InstallerPath in d && PloyzPath in d && PloyzdPath in d && GatewayPath in d && DnsPath in d && CorrosionPath in d
    && TargetKey in d && ModeKey in d
  }

  predicate Acceptable(d: Draft) {
    forall k :: k in d ==> Accepts(k, d[k])
  }

  function Finish(d: Draft): InstallManifest
    requires Complete(d) && Acceptable(d)
  {
    InstallManifest(
      d[SourceKind], NonEmptyAt(d, SourceVersion), NonEmptyAt(d, SourceGitUrl), NonEmptyAt(d, SourceGitRef),
      d[BinDir], d[AssetsDir], d[ConfigPath], d[DataDir], d[SocketPath], d[InstallerPath], d[PloyzPath], d[PloyzdPath],
      d[GatewayPath], d[DnsPath], d[CorrosionPath], ParseTarget(d[TargetKey]).value, ParseMode(d[ModeKey]).value,
      if NonEmptyAt(d, BackendKey).Some? then ParseBackend(d[BackendKey]) else None)
  }

  lemma {:induction false} ReadLinesAcceptable(d: Draft, lines: seq<string>)
    requires Acceptable(d)
    ensures ReadLines(d, lines).Some? ==> Acceptable(ReadLines(d, lines).value)
    decreases |lines|
  {
    hide Accepts, KeyFor, ParseShellValue, Trim;
    if lines != [] && ReadLine(d, lines[0]).Some? { ReadLinesAcceptable(ReadLine(d, lines[0]).value, lines[1..]); }
  }

  ghost function Load(text: string): Option<InstallManifest> {
    ReadLinesAcceptable(map[], Lines(text));
    var d := ReadLines(map[], Lines(text));
    if d.Some? && Complete(d.value) then Some(Finish(d.value)) else None
  }

  /** The reader's loop over the lines of the file. */
  method LoadText(text: string) returns (r: Option<InstallManifest>)
    ensures r == Load(text)
  {
    hide ReadLine, Finish, Accepts, Complete;
    var lines := Lines(text);
    var draft: Draft := map[];
    ReadLinesAcceptable(map[], lines);
    for i := 0 to |lines|
      invariant ReadLines(draft, lines[i..]) == ReadLines(map[], lines)
    {
      assert lines[i..][0] == lines[i] && lines[i..][1..] == lines[i + 1..];
      var next := ReadLine(draft, lines[i]);
      if next.None? {
        return None;
      }
      draft := next.value;
    }
    assert lines[|lines|..] == [];
    if !Complete(draft) {
      return None;
    }
    return Some(Finish(draft));
  }

  // ---------------------------------------------------------------------------
  // Quoting
  // ---------------------------------------------------------------------------

  lemma {:induction false} UnescapeEscape(s: string)
    ensures Unescape(Escape(s)) == s
  {
    if s != "" {
      UnescapeEscape(s[1..]);
      var e := Escape(s);
      if s[0] == '\'' {
        assert e[..5] == QUOTED_QUOTE && e[5..] == Escape(s[1..]);
      } else {
        assert e[0] == s[0] && e[1..] == Escape(s[1..]);
        if |e| >= 5 { assert e[..5][0] != QUOTED_QUOTE[0]; }
      }
      assert s == [s[0]] + s[1..];
    }
  }

  lemma {:induction false} EscapeAddsNoNewline(s: string)
    requires '\n' !in s
    ensures '\n' !in Escape(s)
  {
    if s != "" {
      EscapeAddsNoNewline(s[1..]);
      assert s[0] in s;
    }
  }

  lemma TrimKeeps(s: string)
    requires s != "" && !IsWhitespace(s[0]) && !IsWhitespace(s[|s| - 1])
    ensures Trim(s) == s
  {
  }

  /** Any text survives quoting, quotes of both kinds, spaces and equals signs included. */
  lemma QuotedValueParses(s: string)
    ensures ParseShellValue(SingleQuote(s)) == Some(s)
  {
    hide Trim, Unescape, Escape;
    var q := SingleQuote(s);
    TrimKeeps(q);
    assert q[1..|q| - 1] == Escape(s);
    UnescapeEscape(s);
  }

  // ---------------------------------------------------------------------------
  // One line
  // ---------------------------------------------------------------------------

  predicate Plain(s: string) {
    && s != "" && 'A' <= s[0] <= 'Z'
    && forall i :: 0 <= i < |s| ==> s[i] != '=' && s[i] != '\n'
  }

  lemma KeyNameShape(k: Key)
    ensures var n := KeyName(k); n != "" && 'A' <= n[0] <= 'Z' && '=' !in n && '\n' !in n
  {
    hide KeyName;
    KeyNameIsPlain(k);
  }

  lemma KeyNameIsPlain(k: Key)
    ensures Plain(KeyName(k))
  {
    hide Plain;
    SourceNamesArePlain();
    PathNamesArePlain();
    BinaryNamesArePlain();
    ServiceNamesArePlain();
  }

  lemma SourceNamesArePlain()
    ensures Plain("SOURCE_KIND") && Plain("SOURCE_VERSION") && Plain("SOURCE_GIT_URL") && Plain("SOURCE_GIT_REF")
  {
  }

  lemma PathNamesArePlain()
    ensures Plain("BIN_DIR") && Plain("ASSETS_DIR") && Plain("CONFIG_PATH") && Plain("DATA_DIR") && Plain("SOCKET_PATH")
  {
  }

  lemma BinaryNamesArePlain()
    ensures Plain("INSTALLER_PATH") && Plain("PLOYZ_PATH") && Plain("PLOYZD_PATH") && Plain("PLOYZ_GATEWAY_PATH")
    ensures Plain("PLOYZ_DNS_PATH") && Plain("CORROSION_PATH")
  {
  }

  lemma ServiceNamesArePlain()
    ensures Plain("RUNTIME_TARGET") && Plain("SERVICE_MODE") && Plain("SERVICE_BACKEND")
  {
  }

  lemma {:induction false} IndexAfter(s: string, c: char, rest: string)
    requires c !in s
    ensures IndexOf(s + [c] + rest, c) == |s|
  {
    if s == "" {
      assert (s + [c] + rest)[0] == c;
    } else {
      assert s[0] in s;
      IndexAfter(s[1..], c, rest);
      assert (s + [c] + rest)[1..] == s[1..] + [c] + rest;
    }
  }

  lemma PrintedLineReads(d: Draft, k: Key, value: string)
    requires Accepts(k, value)
    ensures ReadLine(d, EnvLine(KeyName(k), value)) == Some(d[k := value])
  {
    hide Trim, ParseShellValue, KeyFor, KeyName, IndexOf, SingleQuote;
    var n, q := KeyName(k), SingleQuote(value);
    var line := EnvLine(n, value);
    KeyNameShape(k);
    QuoteShape(value);
    assert line == n + "=" + q && line[0] == n[0] && line[|line| - 1] == q[|q| - 1];
    TrimKeeps(line);
    IndexAfter(n, '=', q);
    assert line[..|n|] == n && line[|n| + 1..] == q;
    KeyForName(k);
    QuotedValueParses(value);
  }

  lemma QuoteShape(s: string)
    ensures var q := SingleQuote(s); |q| >= 2 && q[0] == '\'' && q[|q| - 1] == '\''
    ensures '\n' !in s ==> '\n' !in SingleQuote(s)
  {
    if '\n' !in s { EscapeAddsNoNewline(s); }
  }

  // ---------------------------------------------------------------------------
  // The whole file
  // ---------------------------------------------------------------------------

  lemma LinesStep(line: string, rest: string)
    requires '\n' !in line && WithoutReturn(line) == line
    ensures Lines(line + "\n" + rest) == [line] + Lines(rest)
  {
    hide IndexOf;
    IndexAfter(line, '\n', rest);
    var s := line + "\n" + rest;
    assert s[..|line|] == line && s[|line| + 1..] == rest;
  }

  lemma PrintedLineShape(m: InstallManifest, i: nat)
    requires i < |KEYS| && '\n' !in Field(m, KEYS[i])
    ensures var line := PrintedLine(m, i); '\n' !in line && WithoutReturn(line) == line
  {
    hide SingleQuote, Field, KeyName;
    KeyNameShape(KEYS[i]);
    QuoteShape(Field(m, KEYS[i]));
    var q := SingleQuote(Field(m, KEYS[i]));
    var line := PrintedLine(m, i);
    assert line[|line| - 1] == q[|q| - 1];
  }

  /** What the file says about the keys from the `i`-th on, on top of `d`. */
  ghost function Recorded(m: InstallManifest, d: Draft, i: nat): Draft
    requires i <= |KEYS|
    decreases |KEYS| - i
  {
    if i == |KEYS| then d else Recorded(m, d[KEYS[i] := Field(m, KEYS[i])], i + 1)
  }

  lemma {:induction false} PrintedFileReads(m: InstallManifest, d: Draft, i: nat)
    requires i <= |KEYS| && forall k :: '\n' !in Field(m, k)
    ensures ReadLines(d, Lines(PrintFrom(m, i))) == Some(Recorded(m, d, i))
    decreases |KEYS| - i
  {
    hide ReadLine, Lines, Field, KeyName, EnvLine, Accepts, WithoutReturn, KEYS;
    if i == |KEYS| {
      NoLines();
    } else {
      PrintedLineShape(m, i);
      LinesStep(PrintedLine(m, i), PrintFrom(m, i + 1));
      FieldAccepted(m, KEYS[i]);
      PrintedLineReads(d, KEYS[i], Field(m, KEYS[i]));
      var next := d[KEYS[i] := Field(m, KEYS[i])];
      PrintedFileReads(m, next, i + 1);
      var rest := Lines(PrintFrom(m, i + 1));
      assert ([PrintedLine(m, i)] + rest)[1..] == rest;
    }
  }

  lemma NoLines()
    ensures Lines("") == []
  {
  }

  lemma FieldAccepted(m: InstallManifest, k: Key)
    ensures Accepts(k, Field(m, k))
  {
  }

  lemma {:induction false} RecordedAll(m: InstallManifest, d: Draft, i: nat)
    requires i <= |KEYS| && (forall j :: 0 <= j < i ==> KEYS[j] in d) && forall k :: k in d ==> d[k] == Field(m, k)
    ensures var r := Recorded(m, d, i); forall k :: k in r ==> r[k] == Field(m, k)
    ensures forall j :: 0 <= j < |KEYS| ==> KEYS[j] in Recorded(m, d, i)
    decreases |KEYS| - i
  {
    hide Field;
    if i < |KEYS| { RecordedAll(m, d[KEYS[i] := Field(m, KEYS[i])], i + 1); }
  }

  ghost predicate NonEmpty(v: Option<string>) { v.Some? ==> v.value != "" }

  /** No field holds a newline, and an optional field that is set is not empty. */
  ghost predicate Storable(m: InstallManifest) {
    && (forall k :: '\n' !in Field(m, k))
    && NonEmpty(m.sourceVersion) && NonEmpty(m.sourceGitUrl) && NonEmpty(m.sourceGitRef)
  }

  lemma FinishRestores(m: InstallManifest, d: Draft)
    requires Storable(m) && forall k :: k in d && d[k] == Field(m, k)
    ensures Complete(d) && Acceptable(d) && Finish(d) == m
  {
    hide Storable, ParseTarget, ParseMode, ParseBackend, TargetName, ModeName, BackendName, Accepts, Field, NonEmptyAt;
    forall k | k in d ensures Accepts(k, d[k]) { FieldAccepted(m, k); }
    EnumRoundTrips(m);
    OptionalsRestored(m, d);
    RequiredRestored(m, d);
  }

  lemma RequiredRestored(m: InstallManifest, d: Draft)
    requires forall k :: k in d && d[k] == Field(m, k)
    ensures Complete(d)
    ensures d[SourceKind] == m.sourceKind && d[BinDir] == m.binDir && d[AssetsDir] == m.assetsDir
    ensures d[ConfigPath] == m.configPath && d[DataDir] == m.dataDir && d[SocketPath] == m.socketPath
    ensures d[InstallerPath] == m.installerPath && d[PloyzPath] == m.ployzPath && d[PloyzdPath] == m.ployzdPath
    ensures d[GatewayPath] == m.gatewayPath && d[DnsPath] == m.dnsPath && d[CorrosionPath] == m.corrosionPath
    ensures d[TargetKey] == TargetName(m.runtimeTarget) && d[ModeKey] == ModeName(m.serviceMode)
    ensures m.serviceBackend.Some? ==> d[BackendKey] == BackendName(m.serviceBackend.value)
  {
  }

  lemma OptionalsRestored(m: InstallManifest, d: Draft)
    requires Storable(m) && forall k :: k in d && d[k] == Field(m, k)
    ensures NonEmptyAt(d, SourceVersion) == m.sourceVersion && NonEmptyAt(d, SourceGitUrl) == m.sourceGitUrl
    ensures NonEmptyAt(d, SourceGitRef) == m.sourceGitRef
    ensures NonEmptyAt(d, BackendKey).Some? <==> m.serviceBackend.Some?
  {
    EnumRoundTrips(m);
  }

  lemma EnumRoundTrips(m: InstallManifest)
    ensures m.serviceBackend.Some? ==> BackendName(m.serviceBackend.value) != ""
    ensures m.serviceBackend.Some? ==> ParseBackend(BackendName(m.serviceBackend.value)) == m.serviceBackend
    ensures ParseTarget(TargetName(m.runtimeTarget)) == Some(m.runtimeTarget)
    ensures ParseMode(ModeName(m.serviceMode)) == Some(m.serviceMode)
  {
  }

  lemma StorableReadsBack(m: InstallManifest)
    requires Storable(m)
    ensures Load(Print(m)) == Some(m)
  {
    hide Finish, Complete, Acceptable, ReadLines, Lines, Recorded, PrintFrom, Field;
    PrintedFileReads(m, map[], 0);
    var d := Recorded(m, map[], 0);
    RecordedAll(m, map[], 0);
    forall k ensures k in d && d[k] == Field(m, k) {
      KeyListed(k);
      var j :| 0 <= j < |KEYS| && KEYS[j] == k;
    }
    FinishRestores(m, d);
  }

  // ---------------------------------------------------------------------------
  // Nothing else reads back
  // ---------------------------------------------------------------------------

  ghost predicate NoNewlines(d: Draft) { forall k :: k in d ==> '\n' !in d[k] }

  lemma {:induction false} LinesHaveNoNewlines(s: string)
    ensures forall l :: l in Lines(s) ==> '\n' !in l
    decreases |s|
  {
    var k := IndexOf(s, '\n');
    NewlineFirst(s);
    if k < |s| {
      LinesHaveNoNewlines(s[k + 1..]);
      assert '\n' !in s[..k];
    }
  }

  lemma {:induction false} NewlineFirst(s: string)
    ensures '\n' !in s[..IndexOf(s, '\n')]
  {
    if s != "" && s[0] != '\n' {
      NewlineFirst(s[1..]);
      assert s[..IndexOf(s, '\n')] == [s[0]] + s[1..][..IndexOf(s[1..], '\n')];
    }
  }

  lemma {:induction false} UnescapeKeepsOut(s: string)
    requires '\n' !in s
    ensures '\n' !in Unescape(s)
    decreases |s|
  {
    if |s| >= 5 && s[..5] == QUOTED_QUOTE {
      UnescapeKeepsOut(s[5..]);
    } else if s != "" {
      assert s[0] in s;
      UnescapeKeepsOut(s[1..]);
    }
  }

  lemma {:induction false} TrimStartKeepsOut(s: string)
    requires '\n' !in s
    ensures '\n' !in TrimStart(s)
  {
    if s != "" && IsWhitespace(s[0]) { TrimStartKeepsOut(s[1..]); }
  }

  lemma {:induction false} TrimEndKeepsOut(s: string)
    requires '\n' !in s
    ensures '\n' !in TrimEnd(s)
  {
    if s != "" && IsWhitespace(s[|s| - 1]) { TrimEndKeepsOut(s[..|s| - 1]); }
  }

  lemma ValueKeepsOut(raw: string)
    requires '\n' !in raw
    ensures ParseShellValue(raw).Some? ==> '\n' !in ParseShellValue(raw).value
  {
    TrimStartKeepsOut(raw);
    TrimEndKeepsOut(TrimStart(raw));
    var t := Trim(raw);
    if |t| >= 2 { UnescapeKeepsOut(t[1..|t| - 1]); }
  }

  lemma {:induction false} ReadLinesKeepsOut(d: Draft, lines: seq<string>)
    requires NoNewlines(d) && forall l :: l in lines ==> '\n' !in l
    ensures ReadLines(d, lines).Some? ==> NoNewlines(ReadLines(d, lines).value)
    decreases |lines|
  {
    hide ParseShellValue, KeyFor, Accepts, Trim;
    if lines != [] && ReadLine(d, lines[0]).Some? {
      var t := Trim(lines[0]);
      assert lines[0] in lines;
      LineKeepsOut(lines[0]);
      if IndexOf(t, '=') < |t| { ValueKeepsOut(t[IndexOf(t, '=') + 1..]); }
      ReadLinesKeepsOut(ReadLine(d, lines[0]).value, lines[1..]);
    }
  }

  lemma LineKeepsOut(line: string)
    requires '\n' !in line
    ensures '\n' !in Trim(line)
  {
    TrimStartKeepsOut(line);
    TrimEndKeepsOut(TrimStart(line));
  }

  /** Whatever the file holds, a manifest read from it is storable. */
  lemma LoadedIsStorable(text: string)
    ensures Load(text).Some? ==> Storable(Load(text).value)
  {
    hide ReadLines, Lines, Complete, Acceptable, NoNewlines, Finish, Storable;
    NothingRead();
    ReadLinesAcceptable(map[], Lines(text));
    LinesHaveNoNewlines(text);
    ReadLinesKeepsOut(map[], Lines(text));
    var d := ReadLines(map[], Lines(text));
    if d.Some? && Complete(d.value) { FinishedStorable(d.value); }
  }

  lemma FinishedStorable(d: Draft)
    requires Complete(d) && Acceptable(d) && NoNewlines(d)
    ensures Storable(Finish(d))
  {
    hide Field, Accepts, ParseTarget, ParseMode, ParseBackend;
    forall k ensures '\n' !in Field(Finish(d), k) { FinishedField(d, k); }
  }

  lemma NothingRead()
    ensures Acceptable(map[]) && NoNewlines(map[])
  {
  }

  lemma FinishedField(d: Draft, k: Key)
    requires Complete(d) && Acceptable(d) && NoNewlines(d)
    ensures '\n' !in Field(Finish(d), k)
  {
    hide ParseTarget, ParseMode, ParseBackend, Accepts;
    NamesArePlain(Finish(d));
  }

  lemma NamesArePlain(m: InstallManifest)
    ensures '\n' !in TargetName(m.runtimeTarget) && '\n' !in ModeName(m.serviceMode)
    ensures m.serviceBackend.Some? ==> '\n' !in BackendName(m.serviceBackend.value)
  {
  }

  /** A stored manifest reads back as itself exactly when it is storable. */
  lemma StoreLoadExact(m: InstallManifest)
    ensures Load(Print(m)) == Some(m) <==> Storable(m)
  {
    hide Load, Print, Storable;
    if Storable(m) { StorableReadsBack(m); }
    LoadedIsStorable(Print(m));
  }

  // ---------------------------------------------------------------------------
  // The format
  // ---------------------------------------------------------------------------

  /** The first four lines say where the software came from. */
  lemma SourceLines(m: InstallManifest)
    ensures |KEYS| == 18
    ensures PrintedLine(m, 0) == EnvLine("SOURCE_KIND", m.sourceKind)
    ensures PrintedLine(m, 1) == EnvLine("SOURCE_VERSION", OrEmpty(m.sourceVersion))
    ensures PrintedLine(m, 2) == EnvLine("SOURCE_GIT_URL", OrEmpty(m.sourceGitUrl))
    ensures PrintedLine(m, 3) == EnvLine("SOURCE_GIT_REF", OrEmpty(m.sourceGitRef))
  {
    hide EnvLine, OrEmpty;
    assert KEYS[0] == SourceKind && KEYS[1] == SourceVersion && KEYS[2] == SourceGitUrl && KEYS[3] == SourceGitRef;
  }

  /** The next five say where things are. */
  lemma PathLines(m: InstallManifest)
    ensures |KEYS| == 18
    ensures PrintedLine(m, 4) == EnvLine("BIN_DIR", m.binDir)
    ensures PrintedLine(m, 5) == EnvLine("ASSETS_DIR", m.assetsDir)
    ensures PrintedLine(m, 6) == EnvLine("CONFIG_PATH", m.configPath)
    ensures PrintedLine(m, 7) == EnvLine("DATA_DIR", m.dataDir)
    ensures PrintedLine(m, 8) == EnvLine("SOCKET_PATH", m.socketPath)
  {
    hide EnvLine, OrEmpty;
    assert KEYS[4] == BinDir && KEYS[5] == AssetsDir && KEYS[6] == ConfigPath;
    assert KEYS[7] == DataDir && KEYS[8] == SocketPath;
  }

  /** The next six say where the binaries are. */
  lemma BinaryLines(m: InstallManifest)
    ensures |KEYS| == 18
    ensures PrintedLine(m, 9) == EnvLine("INSTALLER_PATH", m.installerPath)
    ensures PrintedLine(m, 10) == EnvLine("PLOYZ_PATH", m.ployzPath)
    ensures PrintedLine(m, 11) == EnvLine("PLOYZD_PATH", m.ployzdPath)
    ensures PrintedLine(m, 12) == EnvLine("PLOYZ_GATEWAY_PATH", m.gatewayPath)
    ensures PrintedLine(m, 13) == EnvLine("PLOYZ_DNS_PATH", m.dnsPath)
    ensures PrintedLine(m, 14) == EnvLine("CORROSION_PATH", m.corrosionPath)
  {
    hide EnvLine, OrEmpty;
    assert KEYS[9] == InstallerPath && KEYS[10] == PloyzPath && KEYS[11] == PloyzdPath;
    assert KEYS[12] == GatewayPath && KEYS[13] == DnsPath && KEYS[14] == CorrosionPath;
  }

  /** The last three say how it runs. */
  lemma ServiceLines(m: InstallManifest)
    ensures |KEYS| == 18
    ensures PrintedLine(m, 15) == EnvLine("RUNTIME_TARGET", if m.runtimeTarget == Docker then "docker" else "host")
    ensures PrintedLine(m, 16) == EnvLine("SERVICE_MODE", if m.serviceMode == User then "user" else "system")
    ensures PrintedLine(m, 17) == EnvLine("SERVICE_BACKEND", match m.serviceBackend
      case None => ""
      case Some(SystemdUser) => "systemd-user"
      case Some(SystemdSystem) => "systemd-system"
      case Some(LaunchAgent) => "launch-agent")
  {
    hide EnvLine, OrEmpty;
    assert KEYS[15] == TargetKey && KEYS[16] == ModeKey && KEYS[17] == BackendKey;
  }

  /** A value is put in single quotes, and a quote in it is closed, quoted and opened again. */
  lemma QuotingExample()
    ensures EnvLine("K", "a'b") == "K='a'\"'\"'b'"
  {
    assert Escape("b") == "b" && "a'b"[1..] == "'b" && "'b"[1..] == "b" && "b"[1..] == "";
    assert Escape("'b") == QUOTED_QUOTE + "b";
    assert Escape("a'b") == "a" + (QUOTED_QUOTE + "b");
  }

  /** Blank lines and comments are skipped, and any other line without an equals sign is refused. */
  lemma OtherLines(d: Draft, line: string)
    ensures Trim(line) == "" || Trim(line)[0] == '#' ==> ReadLine(d, line) == Some(d)
    ensures Trim(line) != "" && Trim(line)[0] != '#' && '=' !in Trim(line) ==> ReadLine(d, line) == None
  {
  }

  /** An assignment to a known key replaces its value if the value is fit, and is refused otherwise. */
  lemma AssignmentRead(d: Draft, line: string, name: string, raw: string, k: Key)
    requires Trim(line) == name + "=" + raw && '=' !in name && (name == "" || name[0] != '#') && KeyName(k) == name
    ensures
      var value := ParseShellValue(raw);
      ReadLine(d, line) == if value.Some? && Accepts(k, value.value) then Some(d[k := value.value]) else None
  {
    hide Trim, ParseShellValue, Accepts, KeyName, KeyFor, IndexOf;
    var t := name + "=" + raw;
    IndexAfter(name, '=', raw);
    assert t[..|name|] == name && t[|name| + 1..] == raw && t[0] == if name == "" then '=' else name[0];
    KeyForName(k);
  }

  /** An assignment to any other name is skipped, if its value can be read. */
  lemma OtherAssignment(d: Draft, line: string, name: string, raw: string)
    requires Trim(line) == name + "=" + raw && '=' !in name && (name == "" || name[0] != '#')
    requires forall k :: KeyName(k) != name
    ensures ReadLine(d, line) == if ParseShellValue(raw).Some? then Some(d) else None
  {
    hide Trim, ParseShellValue, Accepts, KeyName, IndexOf, KeyFrom;
    var t := name + "=" + raw;
    IndexAfter(name, '=', raw);
    assert t[..|name|] == name && t[|name| + 1..] == raw && t[0] == if name == "" then '=' else name[0];
    NoKeyFor(name, 0);
  }

  lemma {:induction false} NoKeyFor(name: string, i: nat)
    requires i <= |KEYS| && forall k :: KeyName(k) != name
    ensures KeyFrom(name, i) == None
    decreases |KEYS| - i
  {
    hide KeyName;
    if i < |KEYS| { NoKeyFor(name, i + 1); }
  }

  /** A value without quotes is taken as it stands, unless it has a space in it. */
  lemma BareValue(raw: string)
    requires var t := Trim(raw); !(|t| >= 2 && t[0] == '\'' && t[|t| - 1] == '\'')
    ensures ParseShellValue(raw) == if ' ' in Trim(raw) then None else Some(Trim(raw))
  {
  }

  /** Only the target, the mode and the backend are restricted. */
  lemma FitValues(k: Key, value: string)
    ensures Accepts(k, value) <==>
      && (k == TargetKey ==> value == "docker" || value == "host")
      && (k == ModeKey ==> value == "user" || value == "system")
      && (k == BackendKey ==>
        value == "" || value == "systemd-user" || value == "systemd-system" || value == "launch-agent")
  {
  }

  /** A file makes a manifest exactly when every line can be read and every key but the optional four is there. */
  lemma LoadExact(text: string)
    ensures Load(text).Some? <==>
      && ReadLines(map[], Lines(text)).Some?
      && forall k :: k != SourceVersion && k != SourceGitUrl && k != SourceGitRef && k != BackendKey ==>
        k in ReadLines(map[], Lines(text)).value
  {
    hide Finish, ReadLines, Lines;
    if ReadLines(map[], Lines(text)).Some? { CompleteExact(ReadLines(map[], Lines(text)).value); }
  }

  lemma CompleteExact(d: Draft)
    ensures Complete(d) <==>
      forall k :: k != SourceVersion && k != SourceGitUrl && k != SourceGitRef && k != BackendKey ==> k in d
  {
  }
}
