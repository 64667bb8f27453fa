/**
 * scripts/git/check-protected-paths.ts: the package paths that are unlocked by name. Each is written
 * out in full, as its folder and the rest: the verifier does not read literals of over a hundred
 * characters.
 */
module UnlockedPaths {
  import opened ProtectedPaths

  /** Metadata files the final validation may correct. */
  function Step17Path(i: nat): string {
    match i
    case 0 => "docs/ai-agent-build-prompt-package/" + "00-control/04_CONFLICT_REGISTER.md"
    case 1 => "docs/ai-agent-build-prompt-package/" + "00-control/05_REQUIREMENT_COVERAGE_MATRIX.md"
    case 2 => "docs/ai-agent-build-prompt-package/" + "00-control/06_PACKAGE_BUILD_STATUS.md"
    case 3 => "docs/ai-agent-build-prompt-package/" + "00-control/07_PROMPT_PACKAGE_MANIFEST.md"
    case _ => "docs/ai-agent-build-prompt-package/" + "START_HERE.md"
  }

  /** Prompt files of revision 0.19.0, the new one last. */
  function EarlierRevisionPath(i: nat): string {
    match i
    case 0 => "docs/ai-agent-build-prompt-package/" + "10-phase-05-advanced-tms-wms/222_DISPATCH_BOARD_PROMPT.md"
    case 1 => "docs/ai-agent-build-prompt-package/" + "10-phase-05-advanced-tms-wms/223_FLEET_DRIVER_PROMPT.md"
    case 2 => "docs/ai-agent-build-prompt-package/" + "10-phase-05-advanced-tms-wms/224_ROUTE_LOAD_PLANNING_PROMPT.md"
    case 3 => "docs/ai-agent-build-prompt-package/" + "10-phase-05-advanced-tms-wms/225_FIRST_MIDDLE_LAST_MILE_PROMPT.md"
    case 4 => "docs/ai-agent-build-prompt-package/" + "10-phase-05-advanced-tms-wms/226_GPS_TELEMATICS_INTEGRATION_PROMPT.md"
    case 5 => "docs/ai-agent-build-prompt-package/" + "10-phase-05-advanced-tms-wms/227_CAPACITY_UTILIZATION_PROMPT.md"
    case 6 => "docs/ai-agent-build-prompt-package/" + "10-phase-05-advanced-tms-wms/228_ADVANCED_MILESTONE_EXCEPTION_PROMPT.md"
    case 7 => "docs/ai-agent-build-prompt-package/" + "10-phase-05-advanced-tms-wms/243_HIGH_VOLUME_OPERATIONS_PROMPT.md"
    case 8 => "docs/ai-agent-build-prompt-package/" + "10-phase-05-advanced-tms-wms/245_ADVANCED_TMS_WMS_INTEGRATED_VERIFICATION_PROMPT.md"
    case 9 => "docs/ai-agent-build-prompt-package/" + "10-phase-05-advanced-tms-wms/246_ADVANCED_TMS_WMS_INTEGRITY_SECURITY_HARDENING_PROMPT.md"
    case _ => "docs/ai-agent-build-prompt-package/" + "10-phase-05-advanced-tms-wms/247_ADVANCED_TMS_WMS_DOCUMENTATION_HANDOFF_PROMPT.md"
  }

  function LaterRevisionPath(i: nat): string {
    match i
    case 0 => "docs/ai-agent-build-prompt-package/" + "13-phase-08-customer-portal-loyalty/305_TRACKING_PROMPT.md"
    case 1 => "docs/ai-agent-build-prompt-package/" + "13-phase-08-customer-portal-loyalty/306_SHIPMENT_MONITORING_PROMPT.md"
    case 2 => "docs/ai-agent-build-prompt-package/" + "14-phase-09-intelligence-enterprise/343_MAPS_GPS_TELEMATICS_INTEGRATIONS_PROMPT.md"
    case 3 => "docs/ai-agent-build-prompt-package/" + "10-phase-05-advanced-tms-wms/219_ADVANCED_TMS_WMS_README.md"
    case 4 => "docs/ai-agent-build-prompt-package/" + "10-phase-05-advanced-tms-wms/220_ADVANCED_TMS_WMS_WBS_RUNTIME_KICKOFF_PROMPT.md"
    case 5 => "docs/ai-agent-build-prompt-package/" + "10-phase-05-advanced-tms-wms/248_ADVANCED_TMS_WMS_CLOSURE_VERIFICATION_PROMPT.md"
    case 6 => "docs/ai-agent-build-prompt-package/" + "05-phase-00-discovery-foundation/95_DATA_CLASSIFICATION_FOUNDATION_PROMPT.md"
    case 7 => "docs/ai-agent-build-prompt-package/" + "06-phase-01-platform-core/106_SUBSCRIPTION_MODULE_FEATURE_ENTITLEMENT_PROMPT.md"
    case 8 => "docs/ai-agent-build-prompt-package/" + "06-phase-01-platform-core/117_WHITE_LABEL_FOUNDATION_PROMPT.md"
    case 9 => "docs/ai-agent-build-prompt-package/" + "15-hardening/380_ACCESSIBILITY_AUDIT_PROMPT.md"
    case _ => "docs/ai-agent-build-prompt-package/" + "06-phase-01-platform-core/431_TENANT_MERGE_SPLIT_PROMPT.md"
  }

  /** Control files whose version line may be added. */
  function VersionLinePath(i: nat): string {
    match i
    case 0 => "docs/ai-agent-build-prompt-package/" + "00-control/00_PACKAGE_README.md"
    case 1 => "docs/ai-agent-build-prompt-package/" + "00-control/01_SOURCE_OF_TRUTH_MATRIX.md"
    case 2 => "docs/ai-agent-build-prompt-package/" + "00-control/02_CONFIRMED_DECISION_REGISTER.md"
    case _ => "docs/ai-agent-build-prompt-package/" + "00-control/03_ASSUMPTION_REGISTER.md"
  }

  function Paths(path: nat -> string, n: nat): seq<string> { seq(n, i requires 0 <= i < n => path(i)) }

  function RepositoryLists(): Lists { Lists(Paths(Step17Path, 5), Paths(EarlierRevisionPath, 11) + Paths(LaterRevisionPath, 11), Paths(VersionLinePath, 4)) }

  lemma Step17InPackage(i: nat)
    ensures PackagePrefix() <= Step17Path(i)
  {
  }

  lemma EarlierRevisionInPackage(i: nat)
    ensures PackagePrefix() <= EarlierRevisionPath(i)
  {
  }

  lemma LaterRevisionInPackage(i: nat)
    ensures PackagePrefix() <= LaterRevisionPath(i)
  {
  }

  lemma VersionLineInPackage(i: nat)
    ensures PackagePrefix() <= VersionLinePath(i)
  {
  }

  lemma PathsIn(path: nat -> string, n: nat, prefix: string)
    requires forall i: nat :: prefix <= path(i)
    ensures forall p :: p in Paths(path, n) ==> prefix <= p
  {
  }

  /** What the rules assume of lists, list by list. */
  lemma ListsInPackage(lists: Lists)
    requires lists.step17 != [] && lists.revision != [] && lists.versionLine != []
    requires forall p :: p in lists.step17 || p in lists.revision || p in lists.versionLine ==> PackagePrefix() <= p
    ensures InPackage(lists)
  {
  }

  /** The repository's own lists meet what the rules assume of them. */
  lemma RepositoryListsAreInPackage()
    ensures InPackage(RepositoryLists())
  {
    forall i: nat
      ensures PackagePrefix() <= Step17Path(i) && PackagePrefix() <= VersionLinePath(i)
      ensures PackagePrefix() <= EarlierRevisionPath(i) && PackagePrefix() <= LaterRevisionPath(i)
    {
      Step17InPackage(i);
      EarlierRevisionInPackage(i);
      LaterRevisionInPackage(i);
      VersionLineInPackage(i);
    }
    PathsIn(Step17Path, 5, PackagePrefix());
    PathsIn(EarlierRevisionPath, 11, PackagePrefix());
    PathsIn(LaterRevisionPath, 11, PackagePrefix());
    PathsIn(VersionLinePath, 4, PackagePrefix());
    ListsInPackage(RepositoryLists());
  }
}
