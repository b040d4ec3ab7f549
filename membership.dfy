/**
 * Membership access control of a shared resource (a board): one owner, an
 * ordered list of members and a public flag.
 *
 * The mixin's handlers read the caller from the request context, check
 * who the caller is, and hand a MongoDB-style update descriptor ($addToSet,
 * $pull, $set) to the entity store. Here each handler is a pure function from
 * the stored state, the caller and the target to either a failure or the state
 * the store holds once the descriptor is applied.
 */
module Membership {

  /** An opaque account id. */
  type Identity = string

  /** `None` models an absent (undefined) value in the request context. */
  datatype Option<+T> = None | Some(value: T)

  /** The resource fields the mixin declares. `owner` is copied from the
      creating caller's id, which may be absent, hence the Option. */
  datatype MembershipState = MembershipState(owner: Option<Identity>, members: seq<Identity>, public: bool)

  /** The three permission errors a handler can throw. */
  datatype Failure =
    | NotOwner            // addMembers / removeMembers called by someone other than the owner
    | CannotRemoveOwner   // removeMembers targeting the current owner
    | TransferNotOwner    // transferOwnership called by someone other than the owner

  /** What a handler produces: the next stored state, or a failure (nothing is written). */
  datatype Outcome = Ok(next: MembershipState) | Err(failure: Failure)

  /** JavaScript truthiness of a context user id: absent and "" are falsy. */
  predicate Truthy(userID: Option<Identity>) {
    userID.Some? && userID.value != ""
  }

  predicate NoDuplicates(xs: seq<Identity>) {
    forall i, j :: 0 <= i < j < |xs| ==> xs[i] != xs[j]
  }

  /** The state invariants: there is an owner, the owner is a member, and no
      account is listed twice. */
  predicate Valid(s: MembershipState) {
    s.owner.Some? && s.owner.value in s.members && NoDuplicates(s.members)
  }

  // ---------------------------------------------------------------------------
  // Creation defaults

  /** The fields a newly created resource receives: the owner is the caller,
      the members list holds the caller when there is one (a truthy id), and
      the resource is private. */
  function Create(userID: Option<Identity>): (s: MembershipState)
    ensures s.owner == userID
    ensures forall m :: m in s.members <==> Truthy(userID) && userID == Some(m)
    ensures |s.members| <= 1
    ensures !s.public
  {
    MembershipState(userID, if Truthy(userID) then [userID.value] else [], false)
  }

  /** A freshly created resource satisfies the invariants exactly when the
      creator's id is truthy: an absent id leaves no owner, and the empty id
      becomes the owner without becoming a member. */
  lemma CreateValid(userID: Option<Identity>)
    ensures Valid(Create(userID)) <==> Truthy(userID)
  {
    if userID == Some("") {
      assert Create(userID).members == [];
    }
  }

  // ---------------------------------------------------------------------------
  // The update operators the handlers use on the members array

  /** MongoDB `$addToSet`: append the value unless it is already present. */
  function AddToSet(xs: seq<Identity>, x: Identity): (r: seq<Identity>)
    ensures x in r
    ensures forall y :: y in r <==> y in xs || y == x
    ensures |xs| <= |r| <= |xs| + 1 && r[..|xs|] == xs
    ensures x in xs ==> r == xs
    ensures NoDuplicates(xs) ==> NoDuplicates(r)
  {
    if x in xs then xs else xs + [x]
  }

  /** MongoDB `$pull`: remove every occurrence of the value, keeping the
      order of the rest. */
  function Pull(xs: seq<Identity>, x: Identity): (r: seq<Identity>)
    ensures x !in r
    ensures forall y :: y in r <==> y in xs && y != x
    ensures multiset(r) == multiset(xs)[x := 0]
    ensures x !in xs ==> r == xs
    ensures NoDuplicates(xs) ==> NoDuplicates(r)
    decreases |xs|
  {
    if xs == [] then []
    else
      var rest := Pull(xs[1..], x);
      assert xs == [xs[0]] + xs[1..];
      assert multiset(xs) == multiset{xs[0]} + multiset(xs[1..]);
      if xs[0] == x then rest
      else
        NoDuplicatesCons(xs[0], rest);
        [xs[0]] + rest
  }

  /** Putting an account that is not yet listed in front of a list without
      duplicates keeps it free of duplicates. */
  lemma NoDuplicatesCons(h: Identity, t: seq<Identity>)
    ensures h !in t && NoDuplicates(t) ==> NoDuplicates([h] + t)
  {
    if h !in t && NoDuplicates(t) {
      forall i, j | 0 <= i < j < |[h] + t| ensures ([h] + t)[i] != ([h] + t)[j] {
        if i > 0 {
          assert ([h] + t)[i] == t[i - 1] && ([h] + t)[j] == t[j - 1];
        } else {
          assert ([h] + t)[j] == t[j - 1];
        }
      }
    }
  }

  /** `$pull` works element by element: pulling from a concatenation pulls
      from each part, so the remaining members keep their relative order. */
  lemma {:induction false} PullConcat(a: seq<Identity>, b: seq<Identity>, x: Identity)
    ensures Pull(a + b, x) == Pull(a, x) + Pull(b, x)
    decreases |a|
  {
    if a == [] {
      assert a + b == b;
    } else {
      assert (a + b)[0] == a[0];
      assert (a + b)[1..] == a[1..] + b;
      PullConcat(a[1..], b, x);
    }
  }

  // ---------------------------------------------------------------------------
  // The three guarded mutations

  /** addMembers: only the owner may add; the member is added with
      `$addToSet`, so adding an existing member succeeds and changes nothing.
      There is no check that the target account exists. */
  function AddMembers(s: MembershipState, caller: Option<Identity>, member: Identity): (r: Outcome)
    ensures r.Err? <==> s.owner != caller
    ensures r.Err? ==> r.failure == NotOwner
    ensures r.Ok? ==> r.next.owner == s.owner && r.next.public == s.public
    ensures r.Ok? ==> forall y :: y in r.next.members <==> y in s.members || y == member
    ensures r.Ok? && member in s.members ==> r.next == s
    ensures r.Ok? && member !in s.members ==> r.next.members == s.members + [member]
    ensures Valid(s) && r.Ok? ==> Valid(r.next)
  {
    if s.owner != caller then Err(NotOwner)
    else Ok(s.(members := AddToSet(s.members, member)))
  }

  /** removeMembers: the target may never be the owner, and this guard runs
      before the caller check; then only the owner may remove. The member is
      removed with `$pull`, which keeps the other members in order, so
      removing a non-member succeeds and changes nothing. */
  function RemoveMembers(s: MembershipState, caller: Option<Identity>, member: Identity): (r: Outcome)
    ensures s.owner == Some(member) ==> r == Err(CannotRemoveOwner)
    ensures s.owner != Some(member) && s.owner != caller ==> r == Err(NotOwner)
    ensures r.Ok? <==> s.owner == caller && s.owner != Some(member)
    ensures r.Ok? ==> r.next.owner == s.owner && r.next.public == s.public
    ensures r.Ok? ==> forall y :: y in r.next.members <==> y in s.members && y != member
    ensures r.Ok? ==> multiset(r.next.members) == multiset(s.members)[member := 0]
    ensures r.Ok? ==> r.next.members == Pull(s.members, member)
    ensures r.Ok? && member !in s.members ==> r.next == s
    ensures Valid(s) && r.Ok? ==> Valid(r.next)
  {
    if s.owner == Some(member) then Err(CannotRemoveOwner)
    else if s.owner != caller then Err(NotOwner)
    else Ok(s.(members := Pull(s.members, member)))
  }

  /** transferOwnership: only the owner may transfer; the new owner is added
      to the members with `$addToSet` and becomes the owner with `$set`. The
      previous owner stays a member. */
  function TransferOwnership(s: MembershipState, caller: Option<Identity>, newOwner: Identity): (r: Outcome)
    ensures r.Err? <==> s.owner != caller
    ensures r.Err? ==> r.failure == TransferNotOwner
    ensures r.Ok? ==> r.next.owner == Some(newOwner) && r.next.public == s.public
    ensures r.Ok? ==> forall y :: y in r.next.members <==> y in s.members || y == newOwner
    ensures r.Ok? && newOwner in s.members ==> r.next.members == s.members
    ensures r.Ok? && newOwner !in s.members ==> r.next.members == s.members + [newOwner]
    ensures r.Ok? && s.owner.Some? && s.owner.value in s.members ==> s.owner.value in r.next.members
    ensures Valid(s) && r.Ok? ==> Valid(r.next)
  {
    if s.owner != caller then Err(TransferNotOwner)
    else Ok(MembershipState(Some(newOwner), AddToSet(s.members, newOwner), s.public))
  }

  // ---------------------------------------------------------------------------
  // Properties of single mutations

  /** Adding the same member twice has the effect of adding it once. */
  lemma AddMembersIdempotent(s: MembershipState, caller: Option<Identity>, member: Identity)
    requires AddMembers(s, caller, member).Ok?
    ensures AddMembers(AddMembers(s, caller, member).next, caller, member) == AddMembers(s, caller, member)
  {
  }

  /** Removing the same member twice has the effect of removing it once. */
  lemma RemoveMembersIdempotent(s: MembershipState, caller: Option<Identity>, member: Identity)
    requires RemoveMembers(s, caller, member).Ok?
    ensures RemoveMembers(RemoveMembers(s, caller, member).next, caller, member) == RemoveMembers(s, caller, member)
  {
  }

  /** A caller who is not the owner of a resource can neither add,
      remove nor transfer; asking to remove the owner itself reports the
      owner-removal error rather than the permission error. */
  lemma NonOwnerIsRefused(s: MembershipState, caller: Option<Identity>, target: Identity)
    requires caller != s.owner
    ensures AddMembers(s, caller, target) == Err(NotOwner)
    ensures RemoveMembers(s, caller, target) == Err(if s.owner == Some(target) then CannotRemoveOwner else NotOwner)
    ensures TransferOwnership(s, caller, target) == Err(TransferNotOwner)
  {
  }

  /** Once ownership has moved on, the new owner may remove the former owner. */
  lemma FormerOwnerRemovable(s: MembershipState, newOwner: Identity)
    requires Valid(s) && s.owner != Some(newOwner)
    ensures TransferOwnership(s, s.owner, newOwner).Ok?
    ensures var t := TransferOwnership(s, s.owner, newOwner).next;
      RemoveMembers(t, Some(newOwner), s.owner.value).Ok? &&
      RemoveMembers(t, Some(newOwner), s.owner.value).next.members == Pull(t.members, s.owner.value)
  {
  }

  // ---------------------------------------------------------------------------
  // Sequences of requests

  datatype Action = AddMember(member: Identity) | RemoveMember(member: Identity) | Transfer(newOwner: Identity)

  /** A request as the handlers see it: the caller from the context and the action. */
  datatype Request = Request(caller: Option<Identity>, action: Action)

  function Handle(s: MembershipState, req: Request): Outcome {
    match req.action
    case AddMember(m) => AddMembers(s, req.caller, m)
    case RemoveMember(m) => RemoveMembers(s, req.caller, m)
    case Transfer(o) => TransferOwnership(s, req.caller, o)
  }

  /** The stored state after a request: a failure writes nothing. */
  function Step(s: MembershipState, req: Request): (t: MembershipState)
    ensures Handle(s, req).Err? ==> t == s
    ensures Valid(s) ==> Valid(t)
  {
    match Handle(s, req)
    case Ok(next) => next
    case Err(_) => s
  }

  /** The stored state after handling the requests one after another. */
  function Run(s: MembershipState, reqs: seq<Request>): MembershipState
    decreases |reqs|
  {
    if reqs == [] then s else Run(Step(s, reqs[0]), reqs[1..])
  }

  /** Every sequence of requests, successful or not, keeps the invariants. */
  lemma {:induction false} RunPreservesValid(s: MembershipState, reqs: seq<Request>)
    requires Valid(s)
    ensures Valid(Run(s, reqs))
    decreases |reqs|
  {
    if reqs != [] {
      RunPreservesValid(Step(s, reqs[0]), reqs[1..]);
    }
  }

  /** Requests from callers other than the owner never change anything. */
  lemma {:induction false} RunByOthersIsInert(s: MembershipState, reqs: seq<Request>)
    requires forall i :: 0 <= i < |reqs| ==> reqs[i].caller != s.owner
    ensures Run(s, reqs) == s
    decreases |reqs|
  {
    if reqs != [] {
      assert Step(s, reqs[0]) == s;
      RunByOthersIsInert(s, reqs[1..]);
    }
  }

  /** A hand-over: u1 creates the board, adds u2, cannot remove itself,
      transfers ownership to u2, and u2 then removes u1. */
  lemma HandOverScenario()
    ensures var s := Create(Some("u1"));
      Run(s, [Request(Some("u1"), AddMember("u2")), Request(Some("u1"), RemoveMember("u1")),
              Request(Some("u1"), Transfer("u2")), Request(Some("u2"), RemoveMember("u1"))])
      == MembershipState(Some("u2"), ["u2"], false)
  {
    var s0 := Create(Some("u1"));
    var s1 := Step(s0, Request(Some("u1"), AddMember("u2")));
    assert s1 == MembershipState(Some("u1"), ["u1", "u2"], false);
    var s2 := Step(s1, Request(Some("u1"), RemoveMember("u1")));
    assert s2 == s1;
    var s3 := Step(s2, Request(Some("u1"), Transfer("u2")));
    assert s3 == MembershipState(Some("u2"), ["u1", "u2"], false);
    assert Pull(["u1", "u2"], "u1") == ["u2"];
    assert Step(s3, Request(Some("u2"), RemoveMember("u1"))) == MembershipState(Some("u2"), ["u2"], false);
  }
}
