/** `POST /api/user`: creates the signed-in user's profile document in the
    `users` collection unless it already exists. */
module UserRoute {
  import opened Wrappers
  import opened Text
  import opened Content

  /** A profile document. */
  datatype Profile = Profile(email: Str, displayName: Option<Str>, followedTopics: seq<Str>)

  /** The request body: unreadable JSON, or the three fields, each possibly
      missing or null. */
  datatype Body = Malformed | Body(uid: Option<Str>, email: Option<Str>, displayName: Option<Str>)

  /** The `users` collection after the request, and the response status. */
  datatype Handled = Handled(users: map<Str, Profile>, status: int)

  const BadRequest := 400
  const AlreadyExists := 200
  const Created := 201
  const ServerError := 500

  /** The profile written for a new user: an empty or missing display name is
      stored as null, and the user follows no topics yet. */
  function NewProfile(email: Str, displayName: Option<Str>): (p: Profile)
    ensures p.email == email
    ensures p.displayName.Some? <==> Truthy(displayName)
    ensures p.displayName.Some? ==> p.displayName == displayName
    ensures p.followedTopics == []
  {
    Profile(email, if Truthy(displayName) then displayName else None, [])
  }

  /** The handler. A falsy uid or email answers 400; the profile is read
      (`getOk` false: the read throws) and, if present, left alone with 200;
      otherwise it is written (`setOk` false: the write throws) and the
      answer is 201. Anything thrown, unreadable JSON included, answers 500.
      Only `users/{uid}` can change. */
  function Post(users: map<Str, Profile>, body: Body, getOk: bool, setOk: bool): (r: Handled)
    ensures r.status in {BadRequest, AlreadyExists, Created, ServerError}
    ensures body.Malformed? ==> r.status == ServerError
    ensures r.status == BadRequest <==> body.Body? && (!Truthy(body.uid) || !Truthy(body.email))
    ensures (&& body.Body? && Truthy(body.uid) && Truthy(body.email)
             && (!getOk || (body.uid.value !in users && !setOk))) ==> r.status == ServerError
    ensures r.status == AlreadyExists <==>
      body.Body? && Truthy(body.uid) && Truthy(body.email) && getOk && body.uid.value in users
    ensures r.status == Created <==>
      && body.Body? && Truthy(body.uid) && Truthy(body.email) && getOk
      && body.uid.value !in users && setOk
    ensures r.status != Created ==> r.users == users
    ensures r.status == Created ==>
      r.users == users[body.uid.value := NewProfile(body.email.value, body.displayName)]
  {
    match body
    case Malformed => Handled(users, ServerError)
    case Body(uid, email, displayName) =>
      if !Truthy(uid) || !Truthy(email) then Handled(users, BadRequest)
      else if !getOk then Handled(users, ServerError)
      else if uid.value in users then Handled(users, AlreadyExists)
      else if !setOk then Handled(users, ServerError)
      else Handled(users[uid.value := NewProfile(email.value, displayName)], Created)
  }

  /** Whatever happens, no profile other than `users/{uid}` is created,
      changed or removed. */
  lemma PostTouchesOnlyItsUser(users: map<Str, Profile>, body: Body, getOk: bool, setOk: bool, other: Str)
    requires body.Body? ==> body.uid != Some(other)
    ensures var r := Post(users, body, getOk, setOk);
      && (other in r.users <==> other in users)
      && (other in users ==> r.users[other] == users[other])
  {
  }

  /** Provisioning is idempotent: after a request that created or found the
      profile, a repeat request for the same uid answers 200 (or 500 if the
      read fails) and leaves every profile as it is, with exactly one profile
      for the uid, the first one written. */
  lemma PostIdempotent(users: map<Str, Profile>, body: Body, getOk: bool, setOk: bool,
                       body2: Body, getOk2: bool, setOk2: bool)
    requires Post(users, body, getOk, setOk).status in {AlreadyExists, Created}
    requires body2.Body? && body2.uid == body.uid && Truthy(body2.email)
    ensures var first := Post(users, body, getOk, setOk);
      var second := Post(first.users, body2, getOk2, setOk2);
      && second.status == (if getOk2 then AlreadyExists else ServerError)
      && second.users == first.users
      && body.uid.value in second.users
      && |second.users.Keys| == |users.Keys| + (if first.status == Created then 1 else 0)
  {
  }
}
