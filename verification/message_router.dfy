/** `GET /api/message/all`: the logged-in user's conversation list, computed
    by the planner query when the user's type is "planner" and by the vendor
    queries for every other type. */
module MessageRouter {
  import opened Messages
  import PlannerInbox
  import VendorInbox
  import Seqs

  datatype AllResponse =
    | PlannerList(rows: seq<PlannerInbox.PlannerRow>)
    | VendorList(entries: seq<VendorInbox.VendorEntry>)

  method GetAll(log: seq<Message>, users: Users, vendors: Vendors, viewer: int, userType: string, fmt: int -> string)
      returns (res: AllResponse)
    ensures res.PlannerList? <==> userType == "planner"
    ensures res.PlannerList? ==> res.rows == PlannerInbox.PlannerInbox(log, viewer, users, vendors)
    ensures res.VendorList? ==>
              forall u :: u in VendorInbox.OtherIds(res.entries) <==> u != viewer && u in users && VendorInbox.Talked(log, viewer, u)
    ensures res.VendorList? ==> Seqs.Distinct(VendorInbox.OtherIds(res.entries))
    ensures res.VendorList? ==>
              forall i :: 0 <= i < |res.entries| ==> VendorInbox.Shows(res.entries[i], log, users, viewer, fmt, VendorInbox.ByFormattedText)
  {
    if userType == "planner" {
      res := PlannerList(PlannerInbox.PlannerInbox(log, viewer, users, vendors));
    } else {
      var entries := VendorInbox.VendorInbox(log, users, viewer, fmt, VendorInbox.ByFormattedText);
      res := VendorList(entries);
    }
  }

  /** The route with both corrections: each planner row shows its
      conversation's latest message, and each vendor entry the latest
      message by date. */
  method GetAllIntended(log: seq<Message>, users: Users, vendors: Vendors, viewer: int, userType: string, fmt: int -> string)
      returns (res: AllResponse)
    ensures res.PlannerList? <==> userType == "planner"
    ensures res.PlannerList? ==> res.rows == PlannerInbox.PlannerInboxLatest(log, viewer, users, vendors)
    ensures res.VendorList? ==>
              forall u :: u in VendorInbox.OtherIds(res.entries) <==> u != viewer && u in users && VendorInbox.Talked(log, viewer, u)
    ensures res.VendorList? ==> Seqs.Distinct(VendorInbox.OtherIds(res.entries))
    ensures res.VendorList? ==>
              forall i :: 0 <= i < |res.entries| ==> VendorInbox.Shows(res.entries[i], log, users, viewer, fmt, VendorInbox.ByDate)
  {
    if userType == "planner" {
      res := PlannerList(PlannerInbox.PlannerInboxLatest(log, viewer, users, vendors));
    } else {
      var entries := VendorInbox.VendorInbox(log, users, viewer, fmt, VendorInbox.ByDate);
      res := VendorList(entries);
    }
  }
}
