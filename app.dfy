/** The identity gate at the application root: it reacts to every change of the
    signed-in session, admits only administrators on the allow-list, signs
    anyone else out, and chooses between the loading indicator, the dashboard
    and the login screen. */
module App {
  import opened Types
  import opened Text

  /** The administrator emails as configured, before lower-casing. */
  const ADMIN_EMAILS: seq<string> := ["admin1@company.com", "admin2@company.com", "testadmin@example.com"]

  const UNAUTHORIZED_MESSAGE := "You are not authorized to access this application."

  /** A signed-in identity as the identity provider reports it; its email may be missing. */
  datatype User = User(uid: string, email: Option<string>)

  /** What the root renders. */
  datatype Screen = Spinner | DashboardScreen(user: User) | LoginScreen(authError: Option<string>)

  /** The allow-list as the application holds it: every configured email lower-cased. */
  function AllowList(emails: seq<string>): (allow: seq<string>)
    ensures |allow| == |emails|
    ensures forall i :: 0 <= i < |emails| ==> allow[i] == Lower(emails[i])
  {
    seq(|emails|, i requires 0 <= i < |emails| => Lower(emails[i]))
  }

  /** `currentUser.email?.toLowerCase() ?? ''`. */
  function LoweredEmail(user: User): (e: string)
    ensures user.email.None? ==> e == ""
    ensures user.email.Some? ==> |e| == |user.email.value| && AllLower(e)
    ensures Lower(e) == e
  {
    var e := if user.email.Some? then Lower(user.email.value) else "";
    LowerOfLowered(e);
    e
  }

  /** `ADMIN_EMAILS.includes(...)`: the user may pass the gate. */
  predicate IsAdmin(user: User, allow: seq<string>): (admitted: bool)
    ensures user.email.Some? ==> (admitted <==> Lower(user.email.value) in allow)
    ensures user.email.None? ==> (admitted <==> "" in allow)
  {
    LoweredEmail(user) in allow
  }

  /** The match ignores letter case on both sides: a user is admitted exactly when
      some configured email equals theirs up to case. */
  lemma AdmissionIgnoresCase(user: User, emails: seq<string>)
    requires user.email.Some?
    ensures IsAdmin(user, AllowList(emails)) <==>
      exists i :: 0 <= i < |emails| && Lower(emails[i]) == Lower(user.email.value)
  {
    var allow := AllowList(emails);
    if IsAdmin(user, allow) {
      var i :| 0 <= i < |allow| && allow[i] == LoweredEmail(user);
      assert Lower(emails[i]) == Lower(user.email.value);
    }
  }

  /** A user without an email is admitted only if the list holds an empty email,
      which the configured list does not. */
  lemma NoEmailNotAdmitted(user: User)
    requires user.email.None?
    ensures !IsAdmin(user, AllowList(ADMIN_EMAILS))
  {
    var allow := AllowList(ADMIN_EMAILS);
    forall i | 0 <= i < |allow| ensures allow[i] != "" {
      assert |allow[i]| == |ADMIN_EMAILS[i]|;
    }
  }

  class IdentityGate {
    const allowList: seq<string>
    var user: Option<User>
    var authError: Option<string>
    var isLoading: bool
    /** How many times the gate has asked the identity provider to sign out. */
    var signOutCalls: nat

    /** Only an administrator is ever the current user. */
    ghost predicate Valid()
      reads this
    {
      user.Some? ==> IsAdmin(user.value, allowList)
    }

    constructor (adminEmails: seq<string>)
      ensures Valid()
      ensures allowList == AllowList(adminEmails)
      ensures user == None && authError == None && isLoading && signOutCalls == 0
    {
      allowList := AllowList(adminEmails);
      user := None;
      authError := None;
      isLoading := true;
      signOutCalls := 0;
    }

    /** The `onAuthStateChanged` callback for one event carrying `currentUser`.
        `signOutSucceeds` is the outcome of the sign-out the callback awaits for a
        user who is not an administrator; when it rejects, the rest of the callback
        does not run. */
    method OnAuthStateChanged(currentUser: Option<User>, signOutSucceeds: bool)
      requires Valid()
      modifies this`user, this`authError, this`isLoading, this`signOutCalls
      ensures Valid()
      // An administrator is admitted and any earlier error is cleared.
      ensures currentUser.Some? && IsAdmin(currentUser.value, allowList) ==>
        user == currentUser && authError == None && !isLoading && signOutCalls == old(signOutCalls)
      // Anyone else is signed out and told why.
      ensures currentUser.Some? && !IsAdmin(currentUser.value, allowList) ==>
        signOutCalls == old(signOutCalls) + 1 &&
        if signOutSucceeds then
          user == None && authError == Some(UNAUTHORIZED_MESSAGE) && !isLoading
        else
          user == old(user) && authError == old(authError) && isLoading == old(isLoading)
      // No session: no user, and an earlier error stays visible.
      ensures currentUser.None? ==>
        user == None && authError == old(authError) && !isLoading && signOutCalls == old(signOutCalls)
    {
      if currentUser.Some? {
        if IsAdmin(currentUser.value, allowList) {
          user := currentUser;
          authError := None;
        } else {
          signOutCalls := signOutCalls + 1;
          if !signOutSucceeds {
            return;
          }
          user := None;
          authError := Some(UNAUTHORIZED_MESSAGE);
        }
      } else {
        user := None;
      }
      isLoading := false;
    }

    /** The root's render choice. */
    function Render(): (screen: Screen)
      reads this
      ensures screen.Spinner? <==> isLoading
      ensures screen.DashboardScreen? <==> !isLoading && user.Some?
      ensures screen.LoginScreen? <==> !isLoading && user.None?
      ensures screen.DashboardScreen? ==> Some(screen.user) == user
      ensures screen.LoginScreen? ==> screen.authError == authError
    {
      if isLoading then Spinner
      else if user.Some? then DashboardScreen(user.value)
      else LoginScreen(authError)
    }

    /** The dashboard is only ever shown to an administrator. */
    lemma DashboardOnlyForAdmins()
      requires Valid()
      ensures Render().DashboardScreen? ==> IsAdmin(Render().user, allowList)
    {
    }
  }

  /** A user outside the allow-list signs in: the gate signs them out, and the
      follow-up event without a user leaves the refusal on the login screen. */
  method RejectionScenario(outsider: User) returns (screen: Screen, signOuts: nat)
    requires outsider.email == Some("testuser@example.com")
    ensures screen == LoginScreen(Some(UNAUTHORIZED_MESSAGE))
    ensures signOuts == 1
  {
    var gate := new IdentityGate(ADMIN_EMAILS);
    LowerOfLowered("testuser@example.com");
    gate.OnAuthStateChanged(Some(outsider), true);
    gate.OnAuthStateChanged(None, true);
    screen := gate.Render();
    signOuts := gate.signOutCalls;
  }
}
