/** What the dashboard page shows for the stored session and requests: a
    redirect to login without a session, the expert's job board for the role
    "expert", and the homeowner's own requests for any other role. */
module Dashboard {
  import opened Records
  import opened Lists
  import opened Requests

  /** One job on the expert's board, with its "already offered" flag. */
  datatype JobCard = JobCard(request: ServiceRequest, alreadyOffered: bool)

  datatype Page =
    | LoginRedirect
    | ExpertBoard(expert: User, jobs: seq<JobCard>)
    | HomeownerBoard(homeowner: User, mine: seq<ServiceRequest>)

  /** The expert's cards, one per open job in board order. */
  function JobCards(open: seq<ServiceRequest>, email: string): (cards: seq<JobCard>)
    ensures |cards| == |open|
    ensures forall k :: 0 <= k < |open| ==>
      cards[k].request == open[k] && (cards[k].alreadyOffered <==> HasOffered(open[k], email))
  {
    seq(|open|, k requires 0 <= k < |open| => JobCard(open[k], HasOffered(open[k], email)))
  }

  /** The page the dashboard renders. */
  function DashboardFor(session: Option<User>, rs: seq<ServiceRequest>): (p: Page)
    ensures p.LoginRedirect? <==> session.None?
    ensures p.ExpertBoard? <==> session.Some? && session.value.role == ROLE_EXPERT
    ensures p.HomeownerBoard? <==> session.Some? && session.value.role != ROLE_EXPERT
    ensures p.ExpertBoard? ==> p.expert == session.value && |p.jobs| == |OpenJobs(rs)|
    ensures p.ExpertBoard? ==> forall k :: 0 <= k < |p.jobs| ==>
      && p.jobs[k].request == OpenJobs(rs)[k]
      && p.jobs[k].request.status == STATUS_OPEN && p.jobs[k].request in rs
      && (p.jobs[k].alreadyOffered <==> HasOffered(p.jobs[k].request, session.value.email))
    ensures p.HomeownerBoard? ==> p.homeowner == session.value && p.mine == MyRequests(rs, session.value.email)
    ensures p.HomeownerBoard? ==> forall x :: x in p.mine <==> x in rs && x.homeownerId == session.value.email
  {
    match session
    case None => LoginRedirect
    case Some(user) =>
      if user.role == ROLE_EXPERT then
        var open := OpenJobs(rs);
        assert forall k :: 0 <= k < |open| ==> open[k] in open;
        ExpertBoard(user, JobCards(open, user.email))
      else HomeownerBoard(user, MyRequests(rs, user.email))
  }

  /** A request just posted by a homeowner heads that homeowner's dashboard. */
  lemma PostedRequestShown(user: User, rs: seq<ServiceRequest>, req: ServiceRequest)
    requires user.role != ROLE_EXPERT && req.homeownerId == user.email
    ensures DashboardFor(Some(user), [req] + rs).mine == [req] + DashboardFor(Some(user), rs).mine
  {
  }
}
