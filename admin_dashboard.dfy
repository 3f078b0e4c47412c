/** The admin dashboard's server-side guard and props
    (pages/admin/dashboard.tsx, `getServerSideProps` only). */
module AdminDashboard {
  import opened Wrappers
  import opened UserModel
  import opened Auth
  import opened NextServer

  datatype GalleryStats = GalleryStats(totalImages: nat, paywallImages: nat)

  /** `DashboardProps`. The users are the full stored documents, password
      hashes included. */
  datatype DashboardProps = DashboardProps(users: seq<User>, totalUsers: nat, galleryStats: GalleryStats)

  /** The placeholder statistics the page always sends. */
  const NoStats := GalleryStats(0, 0)

  const LoginPath := "/login"

  /** The page's guard: a session whose user has role admin. */
  predicate AdminSession(session: Option<Session>) {
    session.Some? && session.value.user.role == Some(AdminRole)
  }

  /** `getServerSideProps`. `listFault` and `countFault` are store failures
      that `getAllUsers` and `countUsers` turn into [] and 0; `thrown` is an
      exception raised inside the `try` block (serialising the users), which
      falls back to empty props. */
  method DashboardServerSideProps(store: UserStore, session: Option<Session>,
                                  listFault: bool, countFault: bool, thrown: bool)
    returns (r: PageResult<DashboardProps>)
    ensures !AdminSession(session) ==> r == Redirect(LoginPath, false)
    ensures AdminSession(session) ==> r.Props? && r.props.galleryStats == NoStats
    ensures AdminSession(session) && thrown ==> r.props.users == [] && r.props.totalUsers == 0
    ensures AdminSession(session) && !thrown ==>
      && r.props.users == (if listFault then [] else store.docs)
      && r.props.totalUsers == (if countFault then 0 else |store.docs|)
    ensures r.Props? && !listFault && !countFault && !thrown ==> r.props.totalUsers == |r.props.users|
  {
    if !AdminSession(session) {
      return Redirect(LoginPath, false);
    }
    if thrown {
      return Props(DashboardProps([], 0, NoStats));
    }
    var users := store.GetAllUsers(listFault);
    var totalUsers := store.CountUsers(countFault);
    r := Props(DashboardProps(users, totalUsers, NoStats));
  }
}
