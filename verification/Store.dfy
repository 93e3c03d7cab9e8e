/** The server's tables (crates/server/src/db.rs, migrations v14 to v17): one field per table,
    updated in place by the modules that own the queries. */
module Store {
  import opened Apps
  import opened Wrappers

  datatype Builtin = Games | Browsers | Blocked

  /** `profile` is absent only before migration v16, when groups were shared. */
  datatype GroupRow = GroupRow(id: string, profile: Option<string>, name: string, builtin: Option<Builtin>)

  /** The unique key of a rule is everything but its id, so a rule id is a handle for this row. */
  datatype RuleRow = RuleRow(group: string, rule: GroupRule)

  datatype LimitRow = LimitRow(profile: string, group: string, day: nat, minutes: int)

  datatype AdjustmentRow = AdjustmentRow(id: string, profile: string, group: string, date: string, minutes: int)

  datatype GroupUsageRow = GroupUsageRow(user: string, date: string, group: string, seconds: nat)

  datatype Status = Pending | Approved | Denied

  ghost predicate DistinctProfiles(profiles: seq<string>) {
    forall i, j :: 0 <= i < j < |profiles| ==> profiles[i] != profiles[j]
  }

  class DbPool {
    var profiles: seq<string>
    /** In the order the rows were inserted, which is the order a query without ORDER BY returns. */
    var groups: seq<GroupRow>
    var rules: set<RuleRow>
    var limits: set<LimitRow>
    var adjustments: set<AdjustmentRow>
    var groupUsage: set<GroupUsageRow>
    /** agent_users.profile_id, for users that have a profile. */
    var userProfile: map<string, string>
    /** (profile, app) to status. */
    var approvals: map<(string, string), Status>
    /** Profiles whose new-app approval is on. */
    var approvalMode: set<string>
    var categories: map<string, seq<string>>
    /** (user, app) pairs with at least one row in app_usage. */
    var appsUsed: set<(string, string)>

    constructor ()
      ensures profiles == [] && groups == [] && rules == {} && limits == {} && adjustments == {}
      ensures groupUsage == {} && userProfile == map[] && approvals == map[] && approvalMode == {}
      ensures categories == map[] && appsUsed == {}
    {
      profiles, groups, rules, limits, adjustments := [], [], {}, {}, {};
      groupUsage, userProfile, approvals, approvalMode := {}, map[], map[], {};
      categories, appsUsed := map[], {};
    }
  }
}
