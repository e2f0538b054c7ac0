/** The login page: e-mail, password and a profile; no credential is checked,
    the profile alone decides which dashboard to open. */
module Login {
  import opened Options
  import opened JsText
  import opened Domain

  /** `"admin" | "entregador"`; no profile selected is `None`. */
  datatype Profile = Admin | Entregador

  /** The dashboard each profile opens. */
  function ProfileRoute(p: Profile): string {
    match p
    case Admin => "/admin"
    case Entregador => "/entregador"
  }

  /** `!email || !password || !selectedProfile`: the rejection condition of
      `handleLogin`, which is also the submit button's `disabled` condition.
      It holds when a field is falsy in JavaScript's sense. */
  function IsIncomplete(email: string, password: string, profile: Option<Profile>): (incomplete: bool)
    ensures incomplete <==> !IsTruthy(Some(email)) || !IsTruthy(Some(password)) || profile.None?
  {
    email == [] || password == [] || profile.None?
  }

  /** `handleLogin`'s decision: `None` exactly when the button would be
      disabled, otherwise the route to navigate to, which depends on the
      profile alone. */
  function Decide(email: string, password: string, profile: Option<Profile>): (route: Option<string>)
    ensures route.None? <==> IsIncomplete(email, password, profile)
    ensures route.Some? ==> route.value == ProfileRoute(profile.value)
  {
    if email == "" || password == "" || profile.None? then None
    else if profile.value == Admin then Some("/admin")
    else Some("/entregador")
  }

  /** There is no credential check: any two non-empty e-mail/password pairs
      with the same profile lead to the same place. */
  lemma NoCredentialCheck(e1: string, p1: string, e2: string, p2: string, profile: Profile)
    requires e1 != [] && p1 != [] && e2 != [] && p2 != []
    ensures Decide(e1, p1, Some(profile)) == Decide(e2, p2, Some(profile)) == Some(ProfileRoute(profile))
  {
  }

  /** The route tells the profile apart: with the same credentials, two
      profiles that lead to the same place are the same profile. */
  lemma RouteDeterminesProfile(email: string, password: string, a: Profile, b: Profile)
    requires email != [] && password != []
    requires Decide(email, password, Some(a)) == Decide(email, password, Some(b))
    ensures a == b
  {
  }

  /** The page's state. */
  class Screen {
    var email: string
    var password: string
    var selectedProfile: Option<Profile>

    constructor ()
      ensures email == "" && password == "" && selectedProfile == None
    {
      email := "";
      password := "";
      selectedProfile := None;
    }

    method SetEmail(value: string)
      modifies this
      ensures email == value && password == old(password) && selectedProfile == old(selectedProfile)
    {
      email := value;
    }

    method SetPassword(value: string)
      modifies this
      ensures password == value && email == old(email) && selectedProfile == old(selectedProfile)
    {
      password := value;
    }

    /** Clicking a profile button: it replaces any earlier choice. */
    method SelectProfile(p: Profile)
      modifies this
      ensures selectedProfile == Some(p) && email == old(email) && password == old(password)
    {
      selectedProfile := Some(p);
    }

    /** `handleLogin`: with a field missing, an error toast and no
        navigation; otherwise a welcome toast and navigation to the selected
        profile's dashboard. Nothing in the page's state changes. */
    method HandleLogin() returns (toast: ToastVariant, navigateTo: Option<string>)
      ensures navigateTo == Decide(email, password, selectedProfile)
      ensures toast == if navigateTo.None? then Destructive else Default
    {
      if email == "" || password == "" || selectedProfile.None? {
        return Destructive, None;
      }
      toast := Default;
      if selectedProfile.value == Admin {
        navigateTo := Some("/admin");
      } else {
        navigateTo := Some("/entregador");
      }
    }
  }
}
