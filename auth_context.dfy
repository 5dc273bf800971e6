/** The session state (frontend/src/contexts/AuthContext.tsx): the signed-in user and the loading
    flag of the first profile check. Every awaited call to the auth service is an `Outcome`
    parameter; each call the provider makes is appended to `sent`. */
module AuthContext {
  import opened Wrappers
  import opened TaskTypes
  import Service

  /** A call the provider makes through the auth service. */
  datatype AuthCall = GetProfile | Login | Register | Logout

  class AuthProvider {
    var user: Option<User>
    var loading: bool
    var sent: seq<AuthCall>

    /** The initial state (AuthContext.tsx:17-18): nobody signed in, still loading. */
    constructor ()
      ensures user == None && loading && sent == []
    {
      user := None;
      loading := true;
      sent := [];
    }

    /** `checkAuth` (AuthContext.tsx:20-30): the user is whoever the profile names, or nobody if
        the request fails; loading ends either way, and it never rejects. */
    method CheckAuth(profile: Service.Outcome<Option<User>>)
      modifies this
      ensures sent == old(sent) + [GetProfile] && !loading
      ensures profile.Resolved? ==> user == profile.value
      ensures profile.Rejected? ==> user == None
    {
      sent := sent + [GetProfile];
      if profile.Resolved? {
        user := profile.value;
      } else {
        user := None;
      }
      loading := false;
    }

    /** `login` (AuthContext.tsx:36-44): the profile is checked only once the credentials are
        accepted; a refused login rejects (`ok` is false) and leaves the session as it was.
        Because `checkAuth` swallows its own failure, an accepted login can resolve with nobody
        signed in. */
    method SignIn(login: Service.Outcome<()>, profile: Service.Outcome<Option<User>>) returns (ok: bool)
      modifies this
      ensures ok <==> login.Resolved?
      ensures login.Rejected? ==> sent == old(sent) + [Login] && user == old(user) && loading == old(loading)
      ensures login.Resolved? ==> sent == old(sent) + [Login, GetProfile] && !loading
      ensures login.Resolved? ==> user == (if profile.Resolved? then profile.value else None)
    {
      sent := sent + [Login];
      if login.Rejected? {
        return false;
      }
      CheckAuth(profile);
      ok := true;
    }

    /** `register` (AuthContext.tsx:46-54): the same protocol as `login`. */
    method SignUp(register: Service.Outcome<()>, profile: Service.Outcome<Option<User>>) returns (ok: bool)
      modifies this
      ensures ok <==> register.Resolved?
      ensures register.Rejected? ==> sent == old(sent) + [Register] && user == old(user) && loading == old(loading)
      ensures register.Resolved? ==> sent == old(sent) + [Register, GetProfile] && !loading
      ensures register.Resolved? ==> user == (if profile.Resolved? then profile.value else None)
    {
      sent := sent + [Register];
      if register.Rejected? {
        return false;
      }
      CheckAuth(profile);
      ok := true;
    }

    /** `logout` (AuthContext.tsx:56-64): the user is cleared only once the server agrees; a failed
        logout rejects and leaves the user signed in. */
    method SignOut(logout: Service.Outcome<()>) returns (ok: bool)
      modifies this
      ensures sent == old(sent) + [Logout] && loading == old(loading)
      ensures ok <==> logout.Resolved?
      ensures logout.Resolved? ==> user == None
      ensures logout.Rejected? ==> user == old(user)
    {
      sent := sent + [Logout];
      if logout.Resolved? {
        user := None;
        ok := true;
      } else {
        ok := false;
      }
    }
  }

  /** The provider as it stands after mounting (AuthContext.tsx:32-34): constructed, then one
      profile check. */
  method Mount(profile: Service.Outcome<Option<User>>) returns (p: AuthProvider)
    ensures fresh(p) && p.sent == [GetProfile] && !p.loading
    ensures p.user == (if profile.Resolved? then profile.value else None)
  {
    p := new AuthProvider();
    p.CheckAuth(profile);
  }
}
