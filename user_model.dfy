/**
 * The user record: `username` and `email` are required and unique,
 * `username` is trimmed, `email` trimmed and lower-cased, and `color`
 * defaults to `'#FF5733'`.
 */
module UserModel {
  import opened Common
  import opened JsText

  const DefaultColor: string := "#FF5733"

  datatype User = User(id: Id, username: string, email: string, color: string, createdAt: nat, updatedAt: nat)

  /** The `trim` setter of `username`. */
  function NormalizeUsername(s: string): string
  {
    Trim(s)
  }

  /** The `trim` and `lowercase` setters of `email`, in declaration order. */
  function NormalizeEmail(s: string): (r: string)
    ensures |r| <= |s|
    ensures r == [] || (!IsWhitespace(r[0]) && !IsWhitespace(r[|r| - 1]))
    ensures forall k | 0 <= k < |r| :: !('A' <= r[k] <= 'Z')
  {
    var t := Trim(s);
    ToLowerKeepsEnds(t);
    ToLower(t)
  }

  /** Normalising an email that is already normalised changes nothing. */
  lemma {:induction false} NormalizeEmailIdempotent(s: string)
    ensures NormalizeEmail(NormalizeEmail(s)) == NormalizeEmail(s)
  {
    var t := Trim(s);
    TrimToLowerCommute(ToLower(t));
    calc {
      NormalizeEmail(NormalizeEmail(s));
      ToLower(Trim(ToLower(t)));
      { TrimToLowerCommute(t); }
      ToLower(ToLower(Trim(t)));
      { ToLowerIdempotent(Trim(t)); TrimIdempotent(s); }
      ToLower(t);
    }
  }

  /**
   * Mongoose's construction and validation for `User.create({username, email})`:
   * the setters run first, so a blank value fails `required`; the stored
   * record holds the normalised values and the default colour.
   */
  function BuildUser(username: string, email: string, id: Id, now: nat): (r: Result<User>)
    ensures r.Ok? <==> Trim(username) != "" && Trim(email) != ""
    ensures r.Err? ==> r.error.ValidationFailed? && r.error.paths != {} && r.error.paths <= {"username", "email"}
    ensures r.Ok? ==>
      && r.value.username == Trim(username) && r.value.email == NormalizeEmail(email)
      && NormalizeEmail(r.value.email) == r.value.email
      && r.value.color == DefaultColor
      && r.value.id == id && r.value.createdAt == now && r.value.updatedAt == now
  {
    var name := NormalizeUsername(username);
    var mail := NormalizeEmail(email);
    assert |mail| == |Trim(email)|;
    if name == "" || mail == "" then
      Err(ValidationFailed(MissingUserPaths(name, mail)))
    else
      NormalizeEmailIdempotent(email);
      Ok(User(id, name, mail, DefaultColor, now, now))
  }

  /** The required paths left blank once the setters have run. */
  function MissingUserPaths(name: string, mail: string): (r: set<string>)
    ensures r <= {"username", "email"}
    ensures r == {} <==> name != "" && mail != ""
  {
    if name == "" && mail == "" then {"username", "email"}
    else if name == "" then {"username"}
    else if mail == "" then {"email"}
    else {}
  }

  /** The unique indexes on `username` and on `email`. */
  ghost predicate UsersUnique(users: map<Id, User>)
  {
    forall i, j | i in users && j in users && i != j ::
      users[i].username != users[j].username && users[i].email != users[j].email
  }
}
