/** Which three files a deployment writes, as deploy and as recovery resolve them. */
module DeploymentPaths {
  import opened Models

  type Path = string
  type Content = string

  /** The three files a deployment writes. */
  datatype Paths = Paths(binary: Path, config: Path, unit: Path)

  /** An application definition as the Agent stores it. */
  datatype AppDef = AppDef(binaryPath: Path, configPath: Path, unitName: string)

  datatype Request = Request(appId: Id, binaryPath: Path, configPath: Path, unitName: string, config: Content,
                             artifactUrl: string, artifactSha: string)

  const SUFFIX := ".service"

  predicate HasSuffix(s: string) {
    |s| >= |SUFFIX| && s[|s| - |SUFFIX|..] == SUFFIX
  }

  function TrimSuffix(s: string): string {
    if HasSuffix(s) then s[..|s| - |SUFFIX|] else s
  }

  function WithSuffix(s: string): string {
    if HasSuffix(s) then s else s + SUFFIX
  }

  function UnitPath(unitName: string): Path {
    "/etc/systemd/system/" + WithSuffix(unitName)
  }

  function DefaultConfig(service: string): Path {
    "/etc/" + service + ".conf"
  }

  function ConfigPathOf(configPath: Path, unitName: string): Path {
    if configPath == "" then DefaultConfig(TrimSuffix(unitName)) else configPath
  }

  function DefaultUnit(appId: Id): string {
    "cadentra-" + appId + SUFFIX
  }

  /** deploy takes the binary from the request, or else from the definition stored at the time. */
  function BinaryOf(req: Request, stored: Option<AppDef>): Path {
    if req.binaryPath == "" && stored.Some? then stored.value.binaryPath else req.binaryPath
  }

  function DeployPaths(req: Request, stored: Option<AppDef>): (p: Paths)
    ensures p.config != "" && p.unit != ""
  {
    var unitName := WithSuffix(if req.unitName == "" then DefaultUnit(req.appId) else req.unitName);
    Paths(BinaryOf(req, stored), ConfigPathOf(req.configPath, unitName), UnitPath(unitName))
  }

  /** RecoverDeployments sees only the definition that is stored when it runs. */
  function RecoverPaths(appId: Id, now: Option<AppDef>): (p: Paths)
    ensures p.config != "" && p.unit != ""
  {
    var unitName := if now.Some? && now.value.unitName != "" then now.value.unitName else DefaultUnit(appId);
    Paths(if now.Some? then now.value.binaryPath else "",
          ConfigPathOf(if now.Some? then now.value.configPath else "", unitName), UnitPath(unitName))
  }

  // ---------- when the two agree ----------

  /** The service that a unit name means, with or without the suffix. */
  function ServiceOf(appId: Id, unitName: string): string {
    TrimSuffix(if unitName == "" then DefaultUnit(appId) else unitName)
  }

  /** The two configuration fields mean one file: they are equal, or one is empty and the other spells
      out the default. */
  predicate SameConfig(a: Path, b: Path, service: string) {
    a == b || (a == "" && b == DefaultConfig(service)) || (b == "" && a == DefaultConfig(service))
  }

  /** The definition that recovery finds names the files of the request, field by field. A missing
      definition counts as one with empty fields. */
  predicate Agrees(req: Request, stored: Option<AppDef>, now: Option<AppDef>) {
    var d := if now.Some? then now.value else AppDef("", "", "");
    && d.binaryPath == BinaryOf(req, stored)
    && ServiceOf(req.appId, d.unitName) == ServiceOf(req.appId, req.unitName)
    && SameConfig(d.configPath, req.configPath, ServiceOf(req.appId, req.unitName))
  }

  /** Recovery aims at the files that deploy wrote exactly when the definition it finds agrees with
      the request. */
  lemma {:induction false} RecoveryAimsRight(req: Request, stored: Option<AppDef>, now: Option<AppDef>)
    ensures RecoverPaths(req.appId, now) == DeployPaths(req, stored) <==> Agrees(req, stored, now)
  {
    var d := if now.Some? then now.value else AppDef("", "", "");
    var mine := if req.unitName == "" then DefaultUnit(req.appId) else req.unitName;
    var theirs := if d.unitName == "" then DefaultUnit(req.appId) else d.unitName;
    Suffixes(mine);
    Suffixes(theirs);
    hide HasSuffix, TrimSuffix, WithSuffix, UnitPath, DefaultConfig, DefaultUnit;
    SameUnit(mine, theirs);
    ConfigsAgree(d.configPath, req.configPath, TrimSuffix(mine));
    UnitUnmoved(mine);
  }

  lemma UnitUnmoved(u: string)
    ensures UnitPath(WithSuffix(u)) == UnitPath(u)
  {
    Suffixes(u);
  }

  lemma ConfigsAgree(a: Path, b: Path, service: string)
    ensures (if a == "" then DefaultConfig(service) else a) == (if b == "" then DefaultConfig(service) else b) <==> SameConfig(a, b, service)
  {
  }

  lemma Suffixes(u: string)
    ensures TrimSuffix(WithSuffix(u)) == TrimSuffix(u) && WithSuffix(WithSuffix(u)) == WithSuffix(u)
    ensures WithSuffix(u) == TrimSuffix(u) + SUFFIX
  {
  }

  lemma SameUnit(a: string, b: string)
    ensures UnitPath(a) == UnitPath(b) <==> TrimSuffix(a) == TrimSuffix(b)
  {
    Suffixes(a);
    Suffixes(b);
    var home := "/etc/systemd/system/";
    assert UnitPath(a)[|home|..] == WithSuffix(a) && UnitPath(b)[|home|..] == WithSuffix(b);
    assert WithSuffix(a)[..|WithSuffix(a)| - |SUFFIX|] == TrimSuffix(a);
    assert WithSuffix(b)[..|WithSuffix(b)| - |SUFFIX|] == TrimSuffix(b);
  }

  /** A definition that differs in the binary only, or in nothing but its absence, sends recovery to
      another binary, and to the right config and unit. */
  lemma DiffersInBinary(req: Request, stored: Option<AppDef>, now: Option<AppDef>)
    requires var d := if now.Some? then now.value else AppDef("", "", "");
             ServiceOf(req.appId, d.unitName) == ServiceOf(req.appId, req.unitName) &&
             SameConfig(d.configPath, req.configPath, ServiceOf(req.appId, req.unitName))
    ensures RecoverPaths(req.appId, now) == DeployPaths(req, stored).(binary := if now.Some? then now.value.binaryPath else "")
  {
    var d := if now.Some? then now.value else AppDef("", "", "");
    var mine := if req.unitName == "" then DefaultUnit(req.appId) else req.unitName;
    var theirs := if d.unitName == "" then DefaultUnit(req.appId) else d.unitName;
    Suffixes(mine);
    Suffixes(theirs);
    SameUnit(mine, theirs);
  }

  // ---------- backups ----------

  predicate Separate(p: Paths) {
    p.binary != p.config && p.binary != p.unit && p.config != p.unit
  }

  /** Three different names. */
  predicate Named(p: Paths) {
    Separate(p) && p.binary != "" && p.config != "" && p.unit != ""
  }

  /** The three names a deployment backs up to. */
  function BackupNames(backup: Path): (names: Paths)
    ensures backup != "" ==> Named(names)
  {
    assert (backup + ".conf")[|backup| + 1] == 'c' && (backup + ".unit")[|backup| + 1] == 'u';
    Paths(backup, backup + ".conf", backup + ".unit")
  }
}
