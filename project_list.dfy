/** The project picker (src/screens/ProjectList.js): it loads the activity
    list once and keeps the first activity of every reference number. */
module ProjectList {
  import opened Common
  import opened ProjectContext

  /** What `getActivityList()` settles to, as the effect reads it. */
  datatype ActivityResponse =
    | Rejected                      // the promise rejects
    | NoData                        // `res?.data` is undefined or null
    | NoList                        // `res.data` exists but has no `a_list`
    | Listed(items: seq<Activity>)  // `res.data.a_list`

  class ProjectListScreen {
    /** `activities`; None is the `undefined` an absent `res.data` stores. */
    var activities: Option<seq<Activity>>

    constructor ()
      ensures activities == Some([])
    {
      activities := Some([]);
    }

    /** The mount effect. The optional chain `res?.data?.a_list.reduce(...)`
        short-circuits to undefined when there is no data, but calls `reduce`
        on undefined (and throws into the `catch`) when only the list is
        missing; a rejection is caught as well. */
    method Load(res: ActivityResponse)
      modifies this
      ensures res.Listed? ==> activities == Some(FirstOccurrences(res.items))
      ensures res.NoData? ==> activities == None
      ensures res.Rejected? || res.NoList? ==> activities == old(activities)
    {
      match res {
        case Listed(items) =>
          var unique := DedupByRefNum(items);
          activities := Some(unique);
        case NoData =>
          activities := None;
        case _ =>
      }
    }
  }
}
