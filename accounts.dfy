/** Account data on the server: the salted password hash of main.py
    (`hash_password` and `verify_password`, lines 99-108) and the profile
    update (`update_profile`, lines 736-754), whose user documents are an
    in-memory map. SHA-256 is a parameter `digest` (text to hex digest), and
    the salt `secrets.token_hex` draws is a parameter too. */
module Accounts {
  import opened Results
  import opened Strings

  /** `hash_password`: the salt, a colon, and the digest of the salt
      followed by the password. */
  function HashPassword(password: string, salt: string, digest: string -> string): (stored: string)
    ensures |stored| > |salt| && stored[..|salt|] == salt && stored[|salt|] == ':'
  {
    salt + ":" + digest(salt + password)
  }

  /** Python's `a, b = s.split(":")` when the split does not give exactly two
      parts. */
  datatype UnpackError = NotEnoughValues | TooManyValues

  /** `verify_password`: splits the stored form at every colon, refuses a
      form with other than exactly one colon (the unpacking raises), and
      otherwise compares the digest of salt and password with the stored
      digest. */
  function VerifyPassword(password: string, stored: string, digest: string -> string): (r: Result<bool, UnpackError>)
    ensures r.Err? <==> |Split(stored, ":")| != 2
    ensures r.Err? ==> (r.error == NotEnoughValues <==> ':' !in stored)
    ensures r.Ok? ==> var parts := Split(stored, ":");
                      r.value <==> digest(parts[0] + password) == parts[1]
  {
    var parts := Split(stored, ":");
    if |parts| < 2 then
      SplitNoSeparator(stored);
      Err(NotEnoughValues)
    else if |parts| > 2 then
      SplitHasSeparator(stored);
      Err(TooManyValues)
    else
      SplitHasSeparator(stored);
      Ok(digest(parts[0] + password) == parts[1])
  }

  lemma SplitNoSeparator(s: string)
    requires |Split(s, ":")| < 2
    ensures ':' !in s
  {
    if ':' in s {
      var i :| 0 <= i < |s| && s[i] == ':';
      assert OccursAt(s, ":", i);
    }
  }

  lemma SplitHasSeparator(s: string)
    requires |Split(s, ":")| >= 2
    ensures ':' in s
  {
    if ':' !in s {
      SplitNone(s, ':');
    }
  }

  /** A hex digit, the alphabet of `token_hex` and `hexdigest`. */
  predicate IsHex(s: string)
  {
    forall i :: 0 <= i < |s| ==> '0' <= s[i] <= '9' || 'a' <= s[i] <= 'f'
  }

  lemma HexHasNoColon(s: string)
    requires IsHex(s)
    ensures ':' !in s
  {
    forall i | 0 <= i < |s| ensures s[i] != ':' {
    }
  }

  /** The round trip: checking a password against the form stored for it
      succeeds, and checking another password succeeds exactly when the
      digests of the two salted texts agree. */
  lemma VerifyHashed(password: string, attempt: string, salt: string, digest: string -> string)
    requires IsHex(salt) && IsHex(digest(salt + password))
    ensures VerifyPassword(attempt, HashPassword(password, salt, digest), digest)
         == Ok(digest(salt + attempt) == digest(salt + password))
  {
    var d := digest(salt + password);
    HexHasNoColon(salt);
    HexHasNoColon(d);
    SplitPair(salt, ':', d);
    assert HashPassword(password, salt, digest) == salt + [':'] + d;
  }

  /** Every password verifies against its own stored form. */
  lemma VerifyOwnHash(password: string, salt: string, digest: string -> string)
    requires IsHex(salt) && IsHex(digest(salt + password))
    ensures VerifyPassword(password, HashPassword(password, salt, digest), digest) == Ok(true)
  {
    VerifyHashed(password, password, salt, digest);
  }

  /** The empty stored form of an account created by Google sign-in makes
      the check raise instead of answering `False`. */
  lemma EmptyStoredFormRaises(password: string, digest: string -> string)
    ensures VerifyPassword(password, "", digest) == Err(NotEnoughValues)
  {
  }

  /** The check `login` evidently intends: a stored form that is not a salt
      and a digest around a single colon matches no password, instead of
      raising. It answers as `verify_password` wherever that one answers. */
  function CheckPassword(password: string, stored: string, digest: string -> string): (ok: bool)
    ensures ok <==> VerifyPassword(password, stored, digest) == Ok(true)
    ensures ':' !in stored ==> !ok
  {
    if ':' in stored then
      var parts := Split(stored, ":");
      |parts| == 2 && digest(parts[0] + password) == parts[1]
    else
      SplitNone(stored, ':');
      false
  }

  /** With the corrected check, every password still verifies against its
      own stored form, another password verifies exactly when the salted
      digests agree, and the empty form of a Google account refuses every
      password. */
  lemma CheckPasswordRoundTrip(password: string, attempt: string, salt: string, digest: string -> string)
    requires IsHex(salt) && IsHex(digest(salt + password))
    ensures CheckPassword(password, HashPassword(password, salt, digest), digest)
    ensures CheckPassword(attempt, HashPassword(password, salt, digest), digest) <==> digest(salt + attempt) == digest(salt + password)
    ensures !CheckPassword(attempt, "", digest)
  {
    VerifyHashed(password, password, salt, digest);
    VerifyHashed(password, attempt, salt, digest);
  }

  // ---------------------------------------------------------------------
  // Profiles

  /** The body of a profile update, with its defaults. */
  datatype ProfileUpdateRequest = ProfileUpdateRequest(name: string, dob: string, gender: string, role: string, photoUrl: string)

  /** The body of a request that sets nothing explicitly. */
  const DefaultProfileUpdate := ProfileUpdateRequest("", "", "", "student", "")

  const UserNotFound := HttpError(404, "User not found")

  /** The reply of a successful update. */
  datatype ProfileReply = ProfileReply(message: string, role: string)

  /** `field := value` when the value is non-empty. */
  function SetIfGiven(user: map<string, string>, field: string, value: string): map<string, string>
  {
    if value != "" then user[field := value] else user
  }

  /** The field-wise merge of `update_profile`: each of the five fields is
      overwritten when the request gives a non-empty value, and every other
      field of the document is kept. */
  function MergeProfile(user: map<string, string>, req: ProfileUpdateRequest): (merged: map<string, string>)
  {
    var u := SetIfGiven(user, "name", req.name);
    var u := SetIfGiven(u, "dob", req.dob);
    var u := SetIfGiven(u, "gender", req.gender);
    var u := SetIfGiven(u, "role", req.role);
    SetIfGiven(u, "photo_url", req.photoUrl)
  }

  /** The value a request gives for one of the five fields, "" for any
      other key. */
  function Given(req: ProfileUpdateRequest, key: string): string
  {
    if key == "name" then req.name
    else if key == "dob" then req.dob
    else if key == "gender" then req.gender
    else if key == "role" then req.role
    else if key == "photo_url" then req.photoUrl
    else ""
  }

  /** What the merge does to every key: a key the request gives a non-empty
      value for takes that value; every other key keeps its value, or stays
      absent. */
  lemma MergeProfileFields(user: map<string, string>, req: ProfileUpdateRequest, key: string)
    ensures var merged := MergeProfile(user, req);
            Given(req, key) != "" ==> key in merged && merged[key] == Given(req, key)
    ensures var merged := MergeProfile(user, req);
            Given(req, key) == "" ==> (key in merged <==> key in user) && (key in user ==> merged[key] == user[key])
  {
  }

  /** Merging the same request twice changes nothing more. */
  lemma MergeProfileIdempotent(user: map<string, string>, req: ProfileUpdateRequest)
    ensures MergeProfile(MergeProfile(user, req), req) == MergeProfile(user, req)
  {
    var once := MergeProfile(user, req);
    var twice := MergeProfile(once, req);
    forall key | true
      ensures (key in twice <==> key in once) && (key in twice ==> twice[key] == once[key])
    {
      MergeProfileFields(user, req, key);
      MergeProfileFields(once, req, key);
    }
  }

  /** A request that leaves every field empty, the role included, changes
      nothing. */
  lemma EmptyRequestKeepsProfile(user: map<string, string>)
    ensures MergeProfile(user, ProfileUpdateRequest("", "", "", "", "")) == user
  {
  }

  /** The role's default is "student", not empty, so a request that does not
      mention the role resets it to "student". */
  lemma DefaultRoleOverwrites(user: map<string, string>)
    ensures var merged := MergeProfile(user, DefaultProfileUpdate);
            "role" in merged && merged["role"] == "student"
  {
  }

  /** The user documents. */
  class UserStore {
    var users: map<string, map<string, string>>

    constructor (users: map<string, map<string, string>>)
      ensures this.users == users
    {
      this.users := users;
    }

    /** `update_profile` once the token names `email`: a 404 when the user
        has no document or an empty one; otherwise the merged document is
        saved and the reply echoes the request's role. */
    method UpdateProfile(email: string, req: ProfileUpdateRequest) returns (r: Result<ProfileReply, HttpError>)
      modifies this
      ensures (email !in old(users) || old(users)[email] == map[]) ==> r == Err(UserNotFound) && users == old(users)
      ensures email in old(users) && old(users)[email] != map[] ==>
                r == Ok(ProfileReply("Profile updated", req.role))
                && users == old(users)[email := MergeProfile(old(users)[email], req)]
    {
      if email !in users || users[email] == map[] {
        return Err(UserNotFound);
      }
      var user := users[email];
      if req.name != "" { user := user["name" := req.name]; }
      if req.dob != "" { user := user["dob" := req.dob]; }
      if req.gender != "" { user := user["gender" := req.gender]; }
      if req.role != "" { user := user["role" := req.role]; }
      if req.photoUrl != "" { user := user["photo_url" := req.photoUrl]; }
      users := users[email := user];
      return Ok(ProfileReply("Profile updated", req.role));
    }
  }
}
