/** The site-wide script: the session record and its persisted copy, the request headers
    built from it, the login/signup modals, the featured-video strip and the water tracker. */
module SiteScript {
  import opened Wrappers
  import opened Text
  import opened Catalog

  const ACCESS_TOKEN_KEY := "accessToken"
  const USER_ID_KEY := "userId"
  const WATER_INTAKE_KEY := "waterIntake"
  const WATER_GOAL := 8
  const FEATURED_COUNT := 6

  /** The browser's `localStorage`: string keys mapped to string values. */
  class LocalStorage {
    var items: map<string, string>

    constructor(items: map<string, string>)
      ensures this.items == items
    {
      this.items := items;
    }

    /** `getItem`: the stored string, or `null` for a key never set or removed. */
    function GetItem(key: string): (r: Option<string>)
      reads this
      ensures r.Some? <==> key in items
      ensures r.Some? ==> r.value == items[key]
    {
      if key in items then Some(items[key]) else None
    }

    method SetItem(key: string, value: string)
      modifies this
      ensures items == old(items)[key := value]
      ensures GetItem(key) == Some(value)
      ensures forall k :: k != key ==> GetItem(k) == old(GetItem(k))
    {
      items := items[key := value];
    }

    method RemoveItem(key: string)
      modifies this
      ensures items == old(items) - {key}
      ensures GetItem(key) == None
      ensures forall k :: k != key ==> GetItem(k) == old(GetItem(k))
    {
      items := items - {key};
    }
  }

  /** The `authState` record. */
  class AuthState {
    var isLoggedIn: bool
    var userId: Option<string>
    var accessToken: Option<string>

    /** The defaults the record is declared with. */
    constructor()
      ensures SignedOut()
    {
      isLoggedIn := false;
      userId := None;
      accessToken := None;
    }

    predicate SignedOut()
      reads this
    {
      !isLoggedIn && userId == None && accessToken == None
    }
  }

  /** The session record agrees with its persisted copy: a signed-in record holds exactly the
      stored token and user id, and a signed-out record holds neither. */
  predicate Mirrors(auth: AuthState, storage: LocalStorage)
    reads auth, storage
  {
    if auth.isLoggedIn then
      && auth.accessToken.Some? && auth.userId.Some?
      && auth.accessToken == storage.GetItem(ACCESS_TOKEN_KEY)
      && auth.userId == storage.GetItem(USER_ID_KEY)
    else
      auth.SignedOut()
  }

  /** `initializeAuthState`: a session is restored only when both the stored token and the stored
      user id are non-empty; otherwise the record keeps what it had. */
  method InitializeAuthState(auth: AuthState, storage: LocalStorage)
    modifies auth
    ensures var token, userId := storage.GetItem(ACCESS_TOKEN_KEY), storage.GetItem(USER_ID_KEY);
      if Truthy(token) && Truthy(userId) then
        auth.isLoggedIn && auth.accessToken == token && auth.userId == userId
      else
        unchanged(auth)
    ensures old(auth.SignedOut()) ==> Mirrors(auth, storage)
  {
    var token := storage.GetItem(ACCESS_TOKEN_KEY);
    var userId := storage.GetItem(USER_ID_KEY);
    if Truthy(token) && Truthy(userId) {
      auth.isLoggedIn := true;
      auth.accessToken := token;
      auth.userId := userId;
    }
  }

  /** The login and signup modals: whether each is shown. */
  class AuthModals {
    var loginOpen: bool
    var signupOpen: bool

    constructor()
      ensures !loginOpen && !signupOpen
    {
      loginOpen := false;
      signupOpen := false;
    }

    method OpenLoginModal()
      modifies this
      ensures loginOpen && signupOpen == old(signupOpen)
    {
      loginOpen := true;
    }

    method CloseLoginModal()
      modifies this
      ensures !loginOpen && signupOpen == old(signupOpen)
    {
      loginOpen := false;
    }

    method OpenSignupModal()
      modifies this
      ensures signupOpen && loginOpen == old(loginOpen)
    {
      signupOpen := true;
    }

    method CloseSignupModal()
      modifies this
      ensures !signupOpen && loginOpen == old(loginOpen)
    {
      signupOpen := false;
    }

    /** `switchToSignup`: whatever was shown before, only the signup modal is shown after. */
    method SwitchToSignup()
      modifies this
      ensures !loginOpen && signupOpen
    {
      CloseLoginModal();
      OpenSignupModal();
    }

    /** `switchToLogin`: the mirror image of `SwitchToSignup`. */
    method SwitchToLogin()
      modifies this
      ensures loginOpen && !signupOpen
    {
      CloseSignupModal();
      OpenLoginModal();
    }

    /** The end of the signup form handler: on success the signup modal gives way to the login
        modal; on failure (an alert) nothing changes. */
    method HandleSignupResponse(ok: bool)
      modifies this
      ensures ok ==> !signupOpen && loginOpen
      ensures !ok ==> unchanged(this)
    {
      if ok {
        CloseSignupModal();
        OpenLoginModal();
      }
    }
  }

  /** The fields of an ok answer to `POST /auth/login`. */
  datatype LoginData = LoginData(accessToken: string, userId: string)

  /** The login form handler after the answer arrived: `ok` is the response status; on success
      the token and user id are persisted, copied into the record, and the login modal closes;
      on failure (or a thrown request) only an alert is shown. */
  method HandleLoginResponse(auth: AuthState, storage: LocalStorage, modals: AuthModals, ok: bool, data: LoginData)
    modifies auth, storage, modals
    ensures ok ==> storage.items == old(storage.items)[ACCESS_TOKEN_KEY := data.accessToken][USER_ID_KEY := data.userId]
    ensures ok ==> auth.isLoggedIn && auth.accessToken == Some(data.accessToken) && auth.userId == Some(data.userId)
    ensures ok ==> Mirrors(auth, storage)
    ensures ok ==> !modals.loginOpen && modals.signupOpen == old(modals.signupOpen)
    ensures !ok ==> unchanged(auth) && unchanged(storage) && unchanged(modals)
  {
    if ok {
      storage.SetItem(ACCESS_TOKEN_KEY, data.accessToken);
      storage.SetItem(USER_ID_KEY, data.userId);
      auth.isLoggedIn := true;
      auth.accessToken := Some(data.accessToken);
      auth.userId := Some(data.userId);
      modals.CloseLoginModal();
    }
  }

  /** `logout`: both persisted keys are gone, every other key is kept, and the record is back
      to its defaults. */
  method Logout(auth: AuthState, storage: LocalStorage)
    modifies auth, storage
    ensures storage.items == old(storage.items) - {ACCESS_TOKEN_KEY, USER_ID_KEY}
    ensures storage.GetItem(ACCESS_TOKEN_KEY) == None && storage.GetItem(USER_ID_KEY) == None
    ensures auth.SignedOut() && Mirrors(auth, storage)
  {
    storage.RemoveItem(ACCESS_TOKEN_KEY);
    storage.RemoveItem(USER_ID_KEY);
    auth.isLoggedIn := false;
    auth.accessToken := None;
    auth.userId := None;
    assert storage.items == old(storage.items) - {ACCESS_TOKEN_KEY, USER_ID_KEY};
  }

  /** `getAuthHeaders`: JSON content type always, and the caller's identity exactly when the
      record holds a non-empty user id. */
  method GetAuthHeaders(auth: AuthState) returns (headers: map<string, string>)
    ensures "Content-Type" in headers && headers["Content-Type"] == "application/json"
    ensures "X-User-ID" in headers <==> Truthy(auth.userId)
    ensures "X-User-ID" in headers ==> headers["X-User-ID"] == auth.userId.value
    ensures headers.Keys <= {"Content-Type", "X-User-ID"}
  {
    headers := map["Content-Type" := "application/json"];
    if Truthy(auth.userId) {
      headers := headers["X-User-ID" := auth.userId.value];
    }
  }

  /** `videos.slice(0, 6)` in `loadFeaturedVideos`: the first six videos of the answer, in order,
      or all of them when there are fewer. */
  function FeaturedVideos(videos: seq<Video>): (r: seq<Video>)
    ensures |r| == if |videos| < FEATURED_COUNT then |videos| else FEATURED_COUNT
    ensures r <= videos
  {
    if |videos| <= FEATURED_COUNT then videos else videos[..FEATURED_COUNT]
  }

  /** The progress shown by `updateWaterDisplay`: `Math.min(waterIntake / waterGoal * 100, 100)`,
      before rounding. */
  function WaterPercentage(waterIntake: int): (p: real)
    ensures p <= 100.0
    ensures p == 100.0 <==> waterIntake >= WATER_GOAL
    ensures waterIntake < WATER_GOAL ==> p * WATER_GOAL as real == waterIntake as real * 100.0
    ensures waterIntake >= 0 ==> p >= 0.0
  {
    var raw := (waterIntake as real / WATER_GOAL as real) * 100.0;
    if raw < 100.0 then raw else 100.0
  }

  /** More water never shows less progress. */
  lemma WaterPercentageMonotonic(a: int, b: int)
    requires a <= b
    ensures WaterPercentage(a) <= WaterPercentage(b)
  {
  }

  /** The module-level `waterIntake` counter. */
  class WaterTracker {
    var waterIntake: int

    constructor()
      ensures waterIntake == 0
    {
      waterIntake := 0;
    }

    /** `initializeWaterIntake`: a stored non-empty decimal numeral is read back. */
    method InitializeWaterIntake(storage: LocalStorage)
      modifies this
      ensures var stored := storage.GetItem(WATER_INTAKE_KEY);
        if Truthy(stored) && ParseNat(stored.value).Some? then waterIntake == ParseNat(stored.value).value
        else unchanged(this)
    {
      var stored := storage.GetItem(WATER_INTAKE_KEY);
      if Truthy(stored) {
        var parsed := ParseNat(stored.value);
        if parsed.Some? {
          waterIntake := parsed.value;
        }
      }
    }

    /** `addWater`: adds `amount` (a glass, or minus one), never going below zero, and persists
        the new count as its decimal numeral, which reads back as the count itself. */
    method AddWater(storage: LocalStorage, amount: int)
      modifies this, storage
      ensures waterIntake >= 0
      ensures waterIntake == if old(waterIntake) + amount < 0 then 0 else old(waterIntake) + amount
      ensures storage.items == old(storage.items)[WATER_INTAKE_KEY := NatToString(waterIntake)]
      ensures ParseNat(storage.items[WATER_INTAKE_KEY]) == Some(waterIntake)
    {
      var sum := waterIntake + amount;
      waterIntake := if sum < 0 then 0 else sum;
      storage.SetItem(WATER_INTAKE_KEY, NatToString(waterIntake));
      ParseNatToString(waterIntake);
    }

    /** `resetWater`: back to zero, persisted as "0". */
    method ResetWater(storage: LocalStorage)
      modifies this, storage
      ensures waterIntake == 0
      ensures storage.items == old(storage.items)[WATER_INTAKE_KEY := "0"]
    {
      waterIntake := 0;
      storage.SetItem(WATER_INTAKE_KEY, NatToString(0));
    }
  }

  /** What `addWater` persists is what `initializeWaterIntake` restores on the next page load. */
  lemma PersistedIntakeRestores(n: nat)
    ensures var stored := NatToString(n);
      Truthy(Some(stored)) && ParseNat(stored) == Some(n)
  {
    ParseNatToString(n);
  }
}
