/**
 * The front-end navigation guard (frontend/src/router/index.js): the
 * `beforeEach` decision on the stored role and the target path.
 *
 * A role is the text the auth store holds, or None; JavaScript treats
 * None and the empty text alike as "no role". A redirect by route name
 * is written as the path that name is registered under.
 */
module Router {
  import opened Common

  const Landing := "/"
  const LoginPath := "/login"
  const RegisterPath := "/register"
  const AdminDashboard := "/admin/dashboard"
  const DoctorDashboard := "/doctor/dashboard"
  const PatientDashboard := "/patient/dashboard"

  /** The outcome of one navigation: `next()` or `next(<elsewhere>)`. */
  datatype Nav = Proceed | Redirect(path: string)

  /** JavaScript truthiness of the stored role. */
  predicate HasRole(role: Option<string>) {
    role.Some? && role.value != []
  }

  predicate IsPublic(path: string) {
    path == Landing || path == LoginPath || path == RegisterPath
  }

  predicate IsAuthPage(path: string) {
    path == LoginPath || path == RegisterPath
  }

  /** Where a signed-in user is sent from the login and register pages. */
  function DashboardOf(role: string): string {
    if role == "admin" then AdminDashboard
    else if role == "doctor" then DoctorDashboard
    else if role == "patient" then PatientDashboard
    else Landing
  }

  /** A path in an area whose role is not the one signed in. */
  predicate WrongArea(role: Option<string>, path: string) {
    (StartsWith(path, "/admin") && role != Some("admin")) ||
    (StartsWith(path, "/doctor") && role != Some("doctor")) ||
    (StartsWith(path, "/patient") && role != Some("patient"))
  }

  /**
   * The `beforeEach` guard: a navigation either proceeds, goes to Login, or
   * takes a signed-in user to their dashboard; it proceeds only to a page
   * the role may see.
   */
  function BeforeEach(role: Option<string>, path: string): (r: Nav)
    ensures r == Proceed || r == Redirect(LoginPath) || (HasRole(role) && r == Redirect(DashboardOf(role.value)))
    ensures r == Proceed ==> (HasRole(role) || IsPublic(path)) && !WrongArea(role, path)
    ensures r == Proceed && HasRole(role) ==> !IsAuthPage(path)
  {
    if !HasRole(role) && !IsPublic(path) then Redirect(LoginPath)
    else if HasRole(role) && IsAuthPage(path) then Redirect(DashboardOf(role.value))
    else if WrongArea(role, path) then Redirect(LoginPath)
    else Proceed
  }

  /** Without a role only the three public paths open; everything else goes to Login. */
  lemma SignedOutSeesPublicOnly(role: Option<string>, path: string)
    requires !HasRole(role)
    ensures BeforeEach(role, path) == if IsPublic(path) then Proceed else Redirect(LoginPath)
  {
    if IsPublic(path) {
      NotInAreas(path);
    }
  }

  /** With a role, Login and Register send the user to their dashboard, "/" for an unknown role. */
  lemma SignedInSkipsLogin(role: string, path: string)
    requires role != [] && IsAuthPage(path)
    ensures BeforeEach(Some(role), path) == Redirect(DashboardOf(role))
  {
  }

  /**
   * Past those checks, an area path with another role goes to Login and
   * every other navigation proceeds.
   */
  lemma AreaGuard(role: Option<string>, path: string)
    requires HasRole(role) || IsPublic(path)
    requires !(HasRole(role) && IsAuthPage(path))
    ensures BeforeEach(role, path) == Proceed <==> !WrongArea(role, path)
    ensures BeforeEach(role, path) != Proceed ==> BeforeEach(role, path) == Redirect(LoginPath)
  {
  }

  lemma NotInAreas(path: string)
    requires IsPublic(path)
    ensures !StartsWith(path, "/admin") && !StartsWith(path, "/doctor") && !StartsWith(path, "/patient")
  {
    if path == LoginPath || path == RegisterPath {
      assert path[1] != "/admin"[1];
    }
  }

  lemma AdminHome() ensures StartsWith(AdminDashboard, "/admin") && !StartsWith(AdminDashboard, "/doctor") &&
                            !StartsWith(AdminDashboard, "/patient") {
    assert AdminDashboard[..6] == "/admin";
    assert AdminDashboard[1] != "/doctor"[1] && AdminDashboard[1] != "/patient"[1];
  }

  lemma DoctorHome() ensures StartsWith(DoctorDashboard, "/doctor") && !StartsWith(DoctorDashboard, "/admin") &&
                             !StartsWith(DoctorDashboard, "/patient") {
    assert DoctorDashboard[..7] == "/doctor";
    assert DoctorDashboard[1] != "/admin"[1] && DoctorDashboard[1] != "/patient"[1];
  }

  lemma PatientHome() ensures StartsWith(PatientDashboard, "/patient") && !StartsWith(PatientDashboard, "/admin") &&
                              !StartsWith(PatientDashboard, "/doctor") {
    assert PatientDashboard[..8] == "/patient";
    assert PatientDashboard[1] != "/admin"[1] && PatientDashboard[1] != "/doctor"[1];
  }

  /** Each role's dashboard opens for that role. */
  lemma DashboardOpens(role: string)
    requires role != []
    ensures BeforeEach(Some(role), DashboardOf(role)) == Proceed
  {
    if role == "admin" {
      AdminHome();
    } else if role == "doctor" {
      DoctorHome();
    } else if role == "patient" {
      PatientHome();
    } else {
      NotInAreas(Landing);
    }
  }

  /** Following the guard's redirects reaches a navigation that proceeds within two hops. */
  lemma WithinTwoHops(role: Option<string>, path: string)
    ensures var first := BeforeEach(role, path);
            first == Proceed ||
            BeforeEach(role, first.path) == Proceed ||
            (BeforeEach(role, first.path).Redirect? && BeforeEach(role, BeforeEach(role, first.path).path) == Proceed)
  {
    var first := BeforeEach(role, path);
    if first.Redirect? {
      if !HasRole(role) {
        NotInAreas(LoginPath);
      } else {
        DashboardOpens(role.value);
      }
    }
  }
}
