/**
 * The default listing scope of the mixin. Before a listing reaches the store,
 * the scope rewrites the listing's query object in place: with a logged-in
 * caller it restricts the listing to resources whose members contain the
 * caller; with a context but no (truthy) caller it restricts the listing to
 * public resources; without a context it does nothing.
 */
module MembershipScope {
  import opened Membership

  /** A value in a store query object. `Other` stands for any other JSON
      value a caller may have put in the query. */
  datatype Value = Str(text: string) | Bool(flag: bool) | Other(json: string)

  /** The part of the request context the scope reads: the logged-in user id. */
  datatype Context = Context(userID: Option<Identity>)

  const MembersKey: string := "members"
  const PublicKey: string := "public"

  /** The query keys after the scope: every key other than `members` and
      `public` keeps its value; with a truthy caller `members` becomes the
      caller and `public` is untouched; with a context but no truthy caller
      `public` becomes true and `members` is untouched; without a context
      nothing changes. */
  function Scoped(q: map<string, Value>, ctx: Option<Context>): (r: map<string, Value>)
    ensures forall k :: k != MembersKey && k != PublicKey ==> (k in r <==> k in q) && (k in r ==> r[k] == q[k])
    ensures ctx.None? ==> r == q
    ensures ctx.Some? && Truthy(ctx.value.userID) ==>
      MembersKey in r && r[MembersKey] == Str(ctx.value.userID.value) &&
      (PublicKey in r <==> PublicKey in q) && (PublicKey in q ==> r[PublicKey] == q[PublicKey])
    ensures ctx.Some? && !Truthy(ctx.value.userID) ==>
      PublicKey in r && r[PublicKey] == Bool(true) &&
      (MembersKey in r <==> MembersKey in q) && (MembersKey in q ==> r[MembersKey] == q[MembersKey])
  {
    match ctx
    case None => q
    case Some(c) =>
      if Truthy(c.userID) then q[MembersKey := Str(c.userID.value)]
      else q[PublicKey := Bool(true)]
  }

  /** A store query object, which the scope updates in place. */
  class Query {
    var fields: map<string, Value>

    constructor (fields: map<string, Value>)
      ensures this.fields == fields
    {
      this.fields := fields;
    }
  }

  /** The `membership` scope: rewrites the query and hands it back, or, when
      there is no context, leaves it alone and hands back nothing. */
  method ApplyScope(query: Query, ctx: Option<Context>) returns (r: Option<Query>)
    modifies query
    ensures query.fields == Scoped(old(query.fields), ctx)
    ensures r == if ctx.None? then None else Some(query)
  {
    if ctx.None? {
      return None;
    }
    if Truthy(ctx.value.userID) {
      query.fields := query.fields[MembersKey := Str(ctx.value.userID.value)];
    } else {
      query.fields := query.fields[PublicKey := Bool(true)];
    }
    return Some(query);
  }

  // ---------------------------------------------------------------------------
  // What a scoped query admits

  /** The store's reading of the `members` key: a string value matches the
      resources whose members array contains it. */
  predicate MembersConstraint(q: map<string, Value>, s: MembershipState) {
    MembersKey in q ==> q[MembersKey].Str? && q[MembersKey].text in s.members
  }

  /** The store's reading of the `public` key: a boolean value must equal the
      resource's flag. */
  predicate PublicConstraint(q: map<string, Value>, s: MembershipState) {
    PublicKey in q ==> q[PublicKey].Bool? && q[PublicKey].flag == s.public
  }

  /** A logged-in caller is shown exactly the resources it is a member of
      (within whatever the query already asked of `public`). Being public does
      not admit a resource to a caller who is not a member. */
  lemma CallerSeesMemberships(q: map<string, Value>, ctx: Option<Context>, s: MembershipState)
    requires ctx.Some? && Truthy(ctx.value.userID)
    ensures MembersConstraint(Scoped(q, ctx), s) <==> ctx.value.userID.value in s.members
    ensures PublicConstraint(Scoped(q, ctx), s) <==> PublicConstraint(q, s)
    ensures s.public && ctx.value.userID.value !in s.members ==> !MembersConstraint(Scoped(q, ctx), s)
  {
  }

  /** With a context but no logged-in caller only public resources are shown
      (within whatever the query already asked of `members`). */
  lemma AnonymousSeesPublic(q: map<string, Value>, ctx: Option<Context>, s: MembershipState)
    requires ctx.Some? && !Truthy(ctx.value.userID)
    ensures PublicConstraint(Scoped(q, ctx), s) <==> s.public
    ensures MembersConstraint(Scoped(q, ctx), s) <==> MembersConstraint(q, s)
  {
  }
}
