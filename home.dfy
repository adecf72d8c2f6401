/** The home screen's logic: fetching the user list (the shapes of body the
    screen accepts, the failure paths and the two loading flags), the
    subtitle that counts the users and the fallbacks each user card uses. */
module Home {
  import opened Text

  /** A user's `id` or `_id`: a number or a string. */
  datatype Id = Num(n: int) | Str(s: string)

  /** JavaScript truthiness of an id: non-zero numbers, non-empty strings. */
  predicate IdTruthy(id: Option<Id>) {
    id.Some? && match id.value
      case Num(n) => n != 0
      case Str(s) => s != []
  }

  /** A string field is truthy when present and not empty. */
  predicate Truthy(s: Option<string>) {
    s.Some? && s.value != []
  }

  /** The fields of a user that the screen reads; a missing field is `None`. */
  datatype User = User(id: Option<Id>, underscoreId: Option<Id>, fullName: Option<string>, username: Option<string>)

  /** The parsed body of the users response. For an object, `users` and
      `data` are `Some` exactly when that field holds an array. */
  datatype Body =
    | Array(items: seq<User>)
    | Object(users: Option<seq<User>>, data: Option<seq<User>>, message: Option<string>, error: Option<string>)
    | Null
    | Scalar

  /** The users an ok response yields: the body itself when it is an array,
      else its `users` array, else its `data` array, else none. Whatever the
      shape, the list is one of the body's own arrays or empty. */
  function Normalise(body: Body): (r: seq<User>)
    requires !body.Null?
    ensures r == [] || (body.Array? && r == body.items)
      || (body.Object? && (Some(r) == body.users || Some(r) == body.data))
    ensures body.Array? ==> r == body.items
    ensures body.Object? && body.users.None? && body.data.Some? ==> r == body.data.value
  {
    match body
    case Array(items) => items
    case Object(users, data, _, _) =>
      if users.Some? then users.value
      else if data.Some? then data.value
      else []
    case Scalar => []
  }

  /** `users` wins over `data` when an object carries both arrays. */
  lemma UsersBeforeData(body: Body)
    requires body.Object? && body.users.Some?
    ensures Normalise(body) == body.users.value
  {
  }

  /** An object with neither array yields the empty list. */
  lemma NoArrayNoUsers(body: Body)
    requires body.Object? && body.users.None? && body.data.None?
    ensures Normalise(body) == []
  {
  }

  /** What `fetch` and `response.json()` come to: a thrown error with its
      message, or a response with `response.ok` and its parsed body. */
  datatype Outcome = Threw(message: string) | Answered(ok: bool, body: Body)

  /** The alert shown on failure: the server's text, or one of the screen's
      own messages. */
  datatype Alert = Reply(text: string) | FailedToFetch | NoConnection | FetchError

  function AlertWording(a: Alert): string {
    match a
    case Reply(text) => text
    case FailedToFetch => "Failed to fetch users"
    case NoConnection => "Unable to connect to server. Please check your connection."
    case FetchError => "An error occurred while fetching users."
  }

  /** `data.message || data.error || 'Failed to fetch users'`; a body that is
      not an object has neither field. */
  function FailureAlert(body: Body): (a: Alert)
    requires !body.Null?
    ensures a.Reply? ==> a.text != [] && body.Object?
    ensures a.Reply? <==> body.Object? && (Truthy(body.message) || Truthy(body.error))
    ensures body.Object? && Truthy(body.message) ==> a == Reply(body.message.value)
    ensures body.Object? && !Truthy(body.message) && Truthy(body.error) ==> a == Reply(body.error.value)
    ensures !a.Reply? ==> a == FailedToFetch
  {
    if body.Object? && Truthy(body.message) then Reply(body.message.value)
    else if body.Object? && Truthy(body.error) then Reply(body.error.value)
    else FailedToFetch
  }

  /** The `catch` branch tells a failed connection from any other error by
      the error's message. */
  function CatchAlert(message: string): (a: Alert)
    ensures a == NoConnection <==> message == "Network request failed"
    ensures a == FetchError <==> message != "Network request failed"
  {
    if message == "Network request failed" then NoConnection else FetchError
  }

  /** The users the screen holds after a fetch: the normalised list of an ok
      response and none on every failure path. A `null` body makes reading
      its fields throw, which lands in the `catch` branch. */
  function UsersAfter(outcome: Outcome): (users: seq<User>)
    ensures users != [] ==> outcome.Answered? && outcome.ok && !outcome.body.Null?
    ensures outcome.Answered? && outcome.ok && !outcome.body.Null? ==> users == Normalise(outcome.body)
  {
    match outcome
    case Threw(_) => []
    case Answered(ok, body) =>
      if body.Null? then []
      else if ok then Normalise(body)
      else []
  }

  /** The alert a fetch raises: none after an ok response, the reply's text
      or the fallback after a refusal, and the `catch` branch's text after a
      thrown error. */
  function AlertAfter(outcome: Outcome): (alert: Option<Alert>)
    ensures alert.None? <==> outcome.Answered? && outcome.ok && !outcome.body.Null?
    ensures outcome.Threw? ==> alert == Some(CatchAlert(outcome.message))
    ensures outcome.Answered? && outcome.body.Null? ==> alert == Some(FetchError)
    ensures outcome.Answered? && !outcome.ok && !outcome.body.Null? ==> alert == Some(FailureAlert(outcome.body))
  {
    match outcome
    case Threw(message) => Some(CatchAlert(message))
    case Answered(ok, body) =>
      if body.Null? then Some(FetchError)
      else if ok then None
      else Some(FailureAlert(body))
  }

  /** A fetch either shows users or raises an alert, never both; an empty
      list without an alert happens only for an ok response. */
  lemma UsersOrAlert(outcome: Outcome)
    ensures UsersAfter(outcome) != [] ==> AlertAfter(outcome).None?
    ensures AlertAfter(outcome).Some? ==> UsersAfter(outcome) == []
  {
  }

  // ------------------------------------------------------------ the screen

  class HomeScreen {
    var users: seq<User>
    var isLoading: bool
    var isRefreshing: bool

    /** The initial state: no users, loading, not refreshing. */
    constructor ()
      ensures users == [] && isLoading && !isRefreshing
    {
      users, isLoading, isRefreshing := [], true, false;
    }

    /** The start of `fetchUsers`: a pull-to-refresh raises only
        `isRefreshing`, any other load only `isLoading`. */
    method StartFetch(isRefresh: bool)
      modifies this`isLoading, this`isRefreshing
      ensures isRefresh ==> isRefreshing && isLoading == old(isLoading)
      ensures !isRefresh ==> isLoading && isRefreshing == old(isRefreshing)
    {
      if isRefresh {
        isRefreshing := true;
      } else {
        isLoading := true;
      }
    }

    /** `fetchUsers` with the network call replaced by its outcome: the users
        and the alert follow `UsersAfter` and `AlertAfter`, and the `finally`
        block leaves both flags down on every path. */
    method FetchUsers(isRefresh: bool, outcome: Outcome) returns (alert: Option<Alert>)
      modifies this
      ensures users == UsersAfter(outcome)
      ensures alert == AlertAfter(outcome)
      ensures !isLoading && !isRefreshing
    {
      StartFetch(isRefresh);
      alert := None;
      match outcome {
        case Threw(message) =>
          alert := Some(CatchAlert(message));
          users := [];
        case Answered(ok, data) =>
          if data.Null? {
            alert := Some(FetchError);
            users := [];
          } else if ok {
            users := Normalise(data);
          } else {
            alert := Some(FailureAlert(data));
            users := [];
          }
      }
      isLoading := false;
      isRefreshing := false;
    }
  }

  // ------------------------------------------------------------ rendering

  const LoggedIn := "You have successfully logged in!"

  /** The header's subtitle for `n` users: the logged-in greeting exactly
      when there are none, since a count opens with a digit. */
  function Subtitle(n: nat): (t: string)
    ensures t == LoggedIn <==> n == 0
  {
    if n > 0 then
      var t := NatToString(n) + " user" + (if n != 1 then "s" else "") + " found";
      assert t[0] == NatToString(n)[0] && IsDigit(t[0]) && !IsDigit(LoggedIn[0]);
      t
    else LoggedIn
  }

  /** The subtitle opens with the count in decimal, which reads back as `n`,
      followed by a space. */
  lemma SubtitleShowsCount(n: nat)
    requires n > 0
    ensures var t, k := Subtitle(n), |NatToString(n)|;
      && k < |t| && t[k] == ' ' && AllDigits(t[..k]) && ParseNat(t[..k]) == n
  {
    var t, d := Subtitle(n), NatToString(n);
    var rest := " user" + (if n != 1 then "s" else "") + " found";
    assert t == d + rest;
    assert t[..|d|] == d;
    assert t[|d|] == rest[0];
    ParseNatToString(n);
  }

  /** "user" is plural exactly when the count is not one. */
  lemma SubtitlePlural(n: nat)
    requires n > 0
    ensures var t, k := Subtitle(n), |NatToString(n)|;
      |t| == k + (if n == 1 then 11 else 12) && (n != 1 <==> t[k + 5] == 's')
  {
  }

  /** No users: the subtitle is the logged-in greeting and carries no count. */
  lemma SubtitleNoUsers(n: nat)
    requires n == 0
    ensures Subtitle(n) == LoggedIn
    ensures forall k | 0 <= k < |Subtitle(n)| :: !IsDigit(Subtitle(n)[k])
  {
  }

  /** A card's React key: `user.id || user._id || index`. */
  datatype CardKey = IdKey(id: Id) | IndexKey(index: nat)

  function KeyFor(user: User, index: nat): (key: CardKey)
    ensures key.IdKey? ==> Some(key.id) == user.id || Some(key.id) == user.underscoreId
    ensures key.IndexKey? <==> !IdTruthy(user.id) && !IdTruthy(user.underscoreId)
    ensures key.IndexKey? ==> key.index == index
    ensures IdTruthy(user.id) ==> key == IdKey(user.id.value)
    ensures !IdTruthy(user.id) && IdTruthy(user.underscoreId) ==> key == IdKey(user.underscoreId.value)
  {
    if IdTruthy(user.id) then IdKey(user.id.value)
    else if IdTruthy(user.underscoreId) then IdKey(user.underscoreId.value)
    else IndexKey(index)
  }

  /** The string React compares keys by: `String(key)`. */
  function KeyText(key: CardKey): (text: string)
    ensures key.IndexKey? ==> AllDigits(text) && ParseNat(text) == key.index
  {
    match key
    case IdKey(Num(n)) => IntToString(n)
    case IdKey(Str(s)) => s
    case IndexKey(i) => ParseNatToString(i); NatToString(i)
  }

  /** Two different cards without ids never share a key. */
  lemma IndexKeysDistinct(u: User, i: nat, v: User, j: nat)
    requires KeyFor(u, i).IndexKey? && KeyFor(v, j).IndexKey? && i != j
    ensures KeyText(KeyFor(u, i)) != KeyText(KeyFor(v, j))
  {
  }

  /** An index key is not kept apart from a numeric id: a card at index 1
      without an id gets the same key text as a card whose id is 1. */
  lemma IndexKeyMeetsNumericId()
    ensures var withId, withoutId := User(Some(Num(1)), None, None, None), User(None, None, Some("A"), None);
      KeyFor(withId, 0) != KeyFor(withoutId, 1)
      && KeyText(KeyFor(withId, 0)) == KeyText(KeyFor(withoutId, 1)) == "1"
  {
    assert NatToString(1) == "1";
  }

  /** Key text that tags each key with its kind, so an index can never be
      read as an id: 'n' before a number, 's' before a string id and 'i'
      before an index. */
  function TaggedKeyText(key: CardKey): (text: string)
    ensures text != [] && text[0] == (match key case IdKey(Num(_)) => 'n' case IdKey(Str(_)) => 's' case IndexKey(_) => 'i')
  {
    match key
    case IdKey(Num(n)) => "n" + IntToString(n)
    case IdKey(Str(s)) => "s" + s
    case IndexKey(i) => "i" + NatToString(i)
  }

  /** Tagged key texts are equal only for equal keys. */
  lemma TaggedKeyTextInjective(a: CardKey, b: CardKey)
    requires TaggedKeyText(a) == TaggedKeyText(b)
    ensures a == b
  {
    var ta, tb := TaggedKeyText(a), TaggedKeyText(b);
    assert ta[1..] == tb[1..];
    match a
    case IdKey(Num(m)) =>
      assert ta[1..] == IntToString(m) && tb[1..] == IntToString(b.id.n);
      IntToStringInjective(m, b.id.n);
    case IdKey(Str(s)) =>
      assert ta[1..] == s && tb[1..] == b.id.s;
    case IndexKey(i) =>
      assert ta[1..] == NatToString(i) && tb[1..] == NatToString(b.index);
      ParseNatToString(i);
      ParseNatToString(b.index);
  }

  /** With tagged keys a card keyed by its index shares its key with no
      other card, whatever that card's ids. */
  lemma TaggedIndexKeyUnique(u: User, i: nat, v: User, j: nat)
    requires KeyFor(u, i).IndexKey? && i != j
    ensures TaggedKeyText(KeyFor(u, i)) != TaggedKeyText(KeyFor(v, j))
  {
    if TaggedKeyText(KeyFor(u, i)) == TaggedKeyText(KeyFor(v, j)) {
      TaggedKeyTextInjective(KeyFor(u, i), KeyFor(v, j));
    }
  }

  const NotAvailable := "N/A"

  /** The name on a card: `user.fullName || user.username || 'N/A'`. */
  function DisplayName(user: User): (name: string)
    ensures name != []
    ensures Truthy(user.fullName) ==> name == user.fullName.value
    ensures !Truthy(user.fullName) && Truthy(user.username) ==> name == user.username.value
    ensures !Truthy(user.fullName) && !Truthy(user.username) ==> name == NotAvailable
  {
    if Truthy(user.fullName) then user.fullName.value
    else if Truthy(user.username) then user.username.value
    else NotAvailable
  }
}
