/** The session state of the front end (src/contexts/AuthContext.tsx): a seed table of two
    demo accounts checked before the backend, the current user, and the persisted 'user'
    slot that mirrors it. */
module Auth {
  import opened Wrappers
  import opened Types

  /** A seed account: the public record and the password kept beside it. */
  datatype SeedAccount = SeedAccount(account: User, password: string)

  const MuserCreatedAt := "2023-01-15T00:00:00Z"
  const MvcCreatedAt := "2023-01-20T00:00:00Z"

  /** `MOCK_USERS`. */
  function SeedAccounts(): seq<SeedAccount> {
    [ SeedAccount(User("1", "muser", "muser@example.com", Seeker, MuserCreatedAt), "muser"),
      SeedAccount(User("2", "mvc", "mvc@example.com", Employer, MvcCreatedAt), "mvc") ]
  }

  predicate Matches(seed: SeedAccount, username: string, password: string) {
    seed.account.username == username && seed.password == password
  }

  /** `MOCK_USERS.find(...)`: the first account whose username and password both equal the
      ones typed. */
  function FindSeed(seeds: seq<SeedAccount>, username: string, password: string): (r: Option<SeedAccount>)
    ensures r.None? <==> forall i :: 0 <= i < |seeds| ==> !Matches(seeds[i], username, password)
    ensures r.Some? ==>
      exists i :: (0 <= i < |seeds| && seeds[i] == r.value && Matches(seeds[i], username, password)
        && forall k :: 0 <= k < i ==> !Matches(seeds[k], username, password))
  {
    if seeds == [] then None
    else if Matches(seeds[0], username, password) then Some(seeds[0])
    else
      var r := FindSeed(seeds[1..], username, password);
      assert forall i :: 1 <= i < |seeds| ==> seeds[i] == seeds[1..][i - 1];
      r
  }

  /** Both demo logins succeed locally, with the records of the seed table; a wrong password
      or a swapped pair does not. */
  lemma SeedLogins()
    ensures FindSeed(SeedAccounts(), "muser", "muser") == Some(SeedAccounts()[0])
    ensures FindSeed(SeedAccounts(), "mvc", "mvc") == Some(SeedAccounts()[1])
    ensures FindSeed(SeedAccounts(), "muser", "mvc").None?
    ensures FindSeed(SeedAccounts(), "mvc", "muser").None?
    ensures SeedAccounts()[0].account.userType == Seeker && SeedAccounts()[1].account.userType == Employer
  {
  }

  /** What `fetch` and `response.json()` produce for a backend call: a thrown error (network
      or body), a response that is not ok, or an ok response with its body. */
  datatype Reply<T> = Threw | NotOk | Ok(body: T)

  class AuthSession {
    /** The current user (`null` is `None`). */
    var user: Option<User>
    /** The persisted 'user' slot. */
    var stored: Option<User>
    var isLoading: bool

    /** The persisted slot always holds the current user. */
    predicate Valid()
      reads this
    {
      stored == user
    }

    /** The start-up effect: the user is read back from the slot when it holds one, and
        loading ends. */
    constructor Restore(slot: Option<User>)
      ensures Valid() && user == slot && !isLoading
    {
      user, stored := slot, slot;
      isLoading := false;
    }

    /** `isAuthenticated`: `!!user`. */
    function IsAuthenticated(): (b: bool)
      reads this
      ensures b <==> user.Some?
    {
      user.Some?
    }

    /** `login`. A seed account matching both fields logs in without the backend, with its
        record minus the password. Otherwise the backend decides: an ok reply logs in with
        the returned record, and a reply that is not ok or a thrown error returns false and
        leaves the session as it was. Loading ends in every case. */
    method Login(username: string, password: string, reply: Reply<User>) returns (ok: bool)
      requires Valid()
      modifies this
      ensures Valid() && !isLoading
      ensures var seed := FindSeed(SeedAccounts(), username, password);
        (seed.Some? ==> ok && user == Some(seed.value.account))
        && (seed.None? && reply.Ok? ==> ok && user == Some(reply.body))
        && (seed.None? && !reply.Ok? ==> !ok && user == old(user))
      ensures ok <==> user.Some? && (FindSeed(SeedAccounts(), username, password).Some? || reply.Ok?)
    {
      isLoading := true;
      var seed := FindSeed(SeedAccounts(), username, password);
      if seed.Some? {
        user := Some(seed.value.account);
        stored := user;
        ok := true;
      } else {
        match reply
        case Ok(data) =>
          user := Some(data);
          stored := user;
          ok := true;
        case NotOk =>
          ok := false;
        case Threw =>
          ok := false;
      }
      isLoading := false;
    }

    /** `register`: true exactly when the backend replies ok; the session is never touched. */
    method Register(username: string, email: string, password: string, userType: Role,
                    reply: Reply<()>) returns (ok: bool)
      requires Valid()
      modifies this
      ensures Valid() && !isLoading
      ensures ok <==> reply.Ok?
      ensures user == old(user) && stored == old(stored)
    {
      isLoading := true;
      ok := reply.Ok?;
      isLoading := false;
    }

    /** `logout`: no current user and an empty slot. */
    method Logout()
      requires Valid()
      modifies this
      ensures Valid() && user.None? && !IsAuthenticated()
      ensures isLoading == old(isLoading)
    {
      user := None;
      stored := None;
    }
  }
}
