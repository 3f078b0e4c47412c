/** The login page's server-side redirect (pages/login.tsx). */
module LoginPage {
  import opened Wrappers
  import opened UserModel
  import opened Auth
  import opened NextServer

  /** The page's empty props, `{}`. */
  datatype LoginProps = LoginProps

  const DashboardPath := "/admin/dashboard"
  const HomePath := "/"

  /** `getServerSideProps`: a signed-in admin goes to the dashboard, any
      other signed-in user to the home page, and without a session the
      form renders. No redirect is permanent. */
  function LoginServerSideProps(session: Option<Session>): (r: PageResult<LoginProps>)
    ensures r.Props? <==> session.None?
    ensures r.Props? ==> r.props == LoginProps
    ensures r.Redirect? ==> !r.permanent
    ensures r.Redirect? ==> (r.destination == DashboardPath <==> session.value.user.role == Some(AdminRole))
    ensures r.Redirect? ==> r.destination in {DashboardPath, HomePath}
  {
    match session
    case None => Props(LoginProps)
    case Some(s) =>
      if s.user.role == Some(AdminRole) then Redirect(DashboardPath, false)
      else Redirect(HomePath, false)
  }
}
