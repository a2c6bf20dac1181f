/** The user store: the signed-in user, their profile document, the role
    derived from it, and the first/last name split done when a profile is
    created. */
module UserStore {
  import opened Common
  import opened Seqs

  /** The identity provider's user: uid, email and display name (the last two may be null). */
  datatype User = User(uid: string, email: Option<string>, displayName: Option<string>)

  datatype UserError = NoAuthenticatedUser

  // ---------------------------------------------------------------- roles

  /** `isAdmin`: `userProfile?.role === 'admin'`. The Cloud Function that
      cancels bookings applies the same test to the caller's profile. Nobody
      without a profile is an admin, and no admin is also an advocate. */
  predicate IsAdmin(profile: Option<Record>): (r: bool)
    ensures profile.None? ==> !r
    ensures r ==> !IsAdvocate(profile)
  {
    profile.Some? && Get(profile.value, "role") == Str("admin")
  }

  /** `isAdvocate`: `userProfile?.role === 'advocate'`. Nobody without a
      profile is an advocate, and an advocate's role is a set, truthy value. */
  predicate IsAdvocate(profile: Option<Record>): (r: bool)
    ensures profile.None? ==> !r
    ensures r ==> "role" in profile.value && Truthy(profile.value["role"])
  {
    profile.Some? && Get(profile.value, "role") == Str("advocate")
  }

  /** `userRole`: `userProfile?.role || 'user'`. It names the admin role exactly
      when `IsAdmin` holds and the advocate role exactly when `IsAdvocate`
      holds, it is never empty, and it is `'user'` without a profile. */
  function UserRole(profile: Option<Record>): (r: Value)
    ensures r == Str("admin") <==> IsAdmin(profile)
    ensures r == Str("advocate") <==> IsAdvocate(profile)
    ensures Truthy(r)
    ensures profile.None? ==> r == Str("user")
    ensures profile.Some? && !Truthy(Get(profile.value, "role")) ==> r == Str("user")
  {
    if profile.Some? then Or(Get(profile.value, "role"), Str("user")) else Str("user")
  }

  // ---------------------------------------------------------- name split

  /** The position of the first space. */
  function FirstSpace(s: string): (r: Option<nat>)
    ensures r.Some? ==> r.value < |s| && s[r.value] == ' ' && ' ' !in s[..r.value]
    ensures r.None? <==> ' ' !in s
  {
    FindIndex((c: char) => c == ' ', s)
  }

  /** `s.split(' ')`: the pieces between single spaces, empty pieces included. */
  function Split(s: string): (parts: seq<string>)
    ensures |parts| >= 1
    ensures forall i :: 0 <= i < |parts| ==> ' ' !in parts[i]
    decreases |s|
  {
    match FirstSpace(s)
    case None => [s]
    case Some(i) => [s[..i]] + Split(s[i + 1..])
  }

  /** `parts.join(' ')`: the first piece, then a space when more follow. */
  function Join(parts: seq<string>): (r: string)
    ensures |parts| >= 1 ==> parts[0] <= r
    ensures |parts| >= 2 ==> |r| > |parts[0]| && r[|parts[0]|] == ' '
  {
    if |parts| == 0 then ""
    else if |parts| == 1 then parts[0]
    else parts[0] + " " + Join(parts[1..])
  }

  lemma JoinCons(head: string, tail: seq<string>)
    requires |tail| >= 1
    ensures Join([head] + tail) == head + " " + Join(tail)
  {
    assert ([head] + tail)[1..] == tail;
  }

  lemma SpaceSplit(s: string, i: nat)
    requires i < |s| && s[i] == ' '
    ensures s == s[..i] + " " + s[i + 1..]
  {
    assert s[..i] + " " + s[i + 1..] == s[..i] + s[i..];
  }

  /** Joining the pieces of a split gives back the string. */
  lemma {:induction false} JoinSplit(s: string)
    ensures Join(Split(s)) == s
    decreases |s|
  {
    match FirstSpace(s)
    case None =>
    case Some(i) =>
      var rest := s[i + 1..];
      JoinSplit(rest);
      JoinCons(s[..i], Split(rest));
      SpaceSplit(s, i);
  }

  /** Splitting a join of space-free pieces gives back the pieces. */
  lemma {:induction false} SplitJoin(parts: seq<string>)
    requires |parts| >= 1
    requires forall i :: 0 <= i < |parts| ==> ' ' !in parts[i]
    ensures Split(Join(parts)) == parts
  {
    if |parts| == 1 {
      assert FirstSpace(parts[0]).None?;
    } else {
      var head := parts[0];
      var rest := Join(parts[1..]);
      var s := head + " " + rest;
      assert s[|head|] == ' ';
      assert forall j :: 0 <= j < |head| ==> s[j] == head[j];
      assert s[..|head|] == head;
      var k := FirstSpace(s);
      assert k == Some(|head|);
      assert s[|head| + 1..] == rest;
      SplitJoin(parts[1..]);
    }
  }

  /** `displayName?.split(' ')[0] || ''`: the text before the first space,
      which holds no space itself. */
  function FirstName(displayName: Option<string>): (r: string)
    ensures ' ' !in r
    ensures displayName.Some? ==> r <= displayName.value
  {
    if displayName.None? then "" else Split(displayName.value)[0]
  }

  /** `displayName?.split(' ').slice(1).join(' ') || ''`: empty unless the
      display name has a space. */
  function LastName(displayName: Option<string>): (r: string)
    ensures displayName.None? || ' ' !in displayName.value ==> r == ""
  {
    if displayName.None? then "" else Join(Split(displayName.value)[1..])
  }

  /** The first name is the text before the first space; with a space in the
      display name, first name, one space and last name rebuild it; without
      one, the whole name is the first name. */
  lemma NameSplit(s: string)
    ensures ' ' !in FirstName(Some(s))
    ensures ' ' in s ==> FirstName(Some(s)) + " " + LastName(Some(s)) == s
    ensures ' ' !in s ==> FirstName(Some(s)) == s && LastName(Some(s)) == ""
  {
    JoinSplit(s);
    var parts := Split(s);
    if ' ' in s {
      var j :| 0 <= j < |s| && s[j] == ' ';
      assert FirstSpace(s).Some?;
      assert |parts| >= 2;
    } else {
      assert FirstSpace(s).None?;
    }
  }

  // ------------------------------------------------------------ profiles

  function EmailOf(user: Option<User>): Value {
    if user.None? then Undefined
    else if user.value.email.None? then Null
    else Str(user.value.email.value)
  }

  function DisplayNameOf(user: Option<User>): Option<string> {
    if user.None? then None else user.value.displayName
  }

  /** The fields a new profile starts with, before `additionalData`. */
  function ProfileDefaults(user: Option<User>): (d: Record)
    ensures d.Keys == {"email", "firstName", "lastName", "role"}
    ensures d["role"] == Str("user")
    ensures d["firstName"] == Str(FirstName(DisplayNameOf(user)))
    ensures d["lastName"] == Str(LastName(DisplayNameOf(user)))
  {
    var name := DisplayNameOf(user);
    map["email" := EmailOf(user), "firstName" := Str(FirstName(name)),
        "lastName" := Str(LastName(name)), "role" := Str("user")]
  }

  /** The default names of a new profile: the first never holds a space, both
      are empty without a display name, and with a space in the display name
      first name, one space and last name rebuild it. */
  lemma DefaultNames(user: Option<User>)
    ensures var d := ProfileDefaults(user);
      && ' ' !in d["firstName"].s
      && (DisplayNameOf(user).None? ==> d["firstName"] == Str("") && d["lastName"] == Str(""))
      && (DisplayNameOf(user).Some? && ' ' in DisplayNameOf(user).value ==>
            d["firstName"].s + " " + d["lastName"].s == DisplayNameOf(user).value)
  {
    if DisplayNameOf(user).Some? {
      NameSplit(DisplayNameOf(user).value);
    }
  }

  /** `createdAt` and `updatedAt`, both `now`. */
  function Stamps(now: int): (t: Record)
    ensures t.Keys == {"createdAt", "updatedAt"}
    ensures t["createdAt"] == Time(now) && t["updatedAt"] == Time(now)
  {
    map["createdAt" := Time(now), "updatedAt" := Time(now)]
  }

  /** The local profile `createUserProfile` builds:
      `{ id: uid, email, firstName, lastName, role: 'user', ...additionalData, createdAt, updatedAt }`.
      Its role is `'user'` unless `additionalData` sets one. */
  function NewProfile(uid: string, user: Option<User>, additionalData: Record, now: int): (p: Record)
    ensures "role" !in additionalData ==> Get(p, "role") == Str("user")
    ensures "role" in additionalData ==> Get(p, "role") == additionalData["role"]
    ensures Get(p, "createdAt") == Time(now) && Get(p, "updatedAt") == Time(now)
  {
    var userData := Spread(ProfileDefaults(user), additionalData);
    Spread(Spread(map["id" := Str(uid)], userData), Stamps(now))
  }

  /** Unless `additionalData` overrides them, the new profile's names come
      from the display name. */
  lemma NewProfileNames(uid: string, user: Option<User>, additionalData: Record, now: int)
    ensures var p := NewProfile(uid, user, additionalData, now);
      && ("firstName" !in additionalData ==> Get(p, "firstName") == Str(FirstName(DisplayNameOf(user))))
      && ("lastName" !in additionalData ==> Get(p, "lastName") == Str(LastName(DisplayNameOf(user))))
  {
    var defaults := ProfileDefaults(user);
    var userData := Spread(defaults, additionalData);
    var stamps := Stamps(now);
    assert NewProfile(uid, user, additionalData, now) == Spread(Spread(map["id" := Str(uid)], userData), stamps);
    assert "firstName" !in stamps && "lastName" !in stamps;
    assert "firstName" in userData && "lastName" in userData;
    if "firstName" !in additionalData {
      assert Get(userData, "firstName") == defaults["firstName"];
    }
    if "lastName" !in additionalData {
      assert Get(userData, "lastName") == defaults["lastName"];
    }
  }

  /** Unless `additionalData` overrides it, the new profile's id is the uid. */
  lemma NewProfileId(uid: string, user: Option<User>, additionalData: Record, now: int)
    requires "id" !in additionalData
    ensures Get(NewProfile(uid, user, additionalData, now), "id") == Str(uid)
  {
    var defaults := ProfileDefaults(user);
    var userData := Spread(defaults, additionalData);
    var stamps := Stamps(now);
    assert NewProfile(uid, user, additionalData, now) == Spread(Spread(map["id" := Str(uid)], userData), stamps);
    assert "id" !in stamps && "id" !in defaults;
    assert "id" !in userData;
  }

  /** A profile created without a role override is a plain user. */
  lemma NewProfileIsPlainUser(uid: string, user: Option<User>, additionalData: Record, now: int)
    requires "role" !in additionalData
    ensures UserRole(Some(NewProfile(uid, user, additionalData, now))) == Str("user")
    ensures !IsAdmin(Some(NewProfile(uid, user, additionalData, now)))
  {
  }

  /** The current profile as `...userProfile.value` spreads it: nothing when
      there is none. */
  function ProfileFields(profile: Option<Record>): Record {
    if profile.Some? then profile.value else map[]
  }

  class UserStore {
    var user: Option<User>
    var userProfile: Option<Record>
    var isAuthenticated: bool

    constructor ()
      ensures user == None && userProfile == None && !isAuthenticated
    {
      user := None;
      userProfile := None;
      isAuthenticated := false;
    }

    /** `createUserProfile(uid, additionalData)`, after the profile document is written. */
    method CreateUserProfile(uid: string, additionalData: Record, now: int)
      modifies this
      ensures userProfile == Some(NewProfile(uid, user, additionalData, now))
      ensures user == old(user) && isAuthenticated == old(isAuthenticated)
    {
      userProfile := Some(NewProfile(uid, user, additionalData, now));
    }

    /** `fetchUserProfile(uid)`: `stored` is the profile document read, if it exists;
        otherwise a fresh profile is created. */
    method FetchUserProfile(uid: string, stored: Option<Record>, now: int)
      modifies this
      ensures stored.Some? ==> userProfile == Some(Spread(map["id" := Str(uid)], stored.value))
      ensures stored.None? ==> userProfile == Some(NewProfile(uid, user, map[], now))
      ensures user == old(user) && isAuthenticated == old(isAuthenticated)
    {
      if stored.Some? {
        userProfile := Some(Spread(map["id" := Str(uid)], stored.value));
      } else {
        CreateUserProfile(uid, map[], now);
      }
    }

    /** `login(firebaseUser)`: set the user, mark the session authenticated,
        then load or create the profile. */
    method Login(firebaseUser: User, stored: Option<Record>, now: int)
      modifies this
      ensures user == Some(firebaseUser) && isAuthenticated
      ensures stored.Some? ==> userProfile == Some(Spread(map["id" := Str(firebaseUser.uid)], stored.value))
      ensures stored.None? ==> userProfile == Some(NewProfile(firebaseUser.uid, user, map[], now))
    {
      user := Some(firebaseUser);
      isAuthenticated := true;
      FetchUserProfile(firebaseUser.uid, stored, now);
    }

    /** `logout()` */
    method Logout()
      modifies this
      ensures user == None && userProfile == None && !isAuthenticated
      ensures UserRole(userProfile) == Str("user") && !IsAdmin(userProfile)
    {
      user := None;
      userProfile := None;
      isAuthenticated := false;
    }

    /** `updateUserProfile(updates)`: refused without a signed-in user. */
    method UpdateUserProfile(updates: Record, now: int) returns (r: Result<(), UserError>)
      modifies this
      ensures r.Err? <==> old(user).None?
      ensures r.Err? ==> userProfile == old(userProfile)
      ensures r.Ok? ==> userProfile == Some(MergeStamped(ProfileFields(old(userProfile)), updates, now))
      ensures user == old(user) && isAuthenticated == old(isAuthenticated)
    {
      if user.None? {
        return Err(NoAuthenticatedUser);
      }
      userProfile := Some(MergeStamped(ProfileFields(userProfile), updates, now));
      r := Ok(());
    }
  }
}
