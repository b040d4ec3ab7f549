# Membership mixin — a Dafny model

This project models the membership access-control mixin of a board service.
A board record has one `owner`, an ordered array of `members` and a `public`
flag. The mixin does four things:

- it gives a new record its default owner, members and visibility;
- it guards three actions, `addMembers`, `removeMembers` and
  `transferOwnership`;
- each guarded action hands the store a MongoDB-style update: `$addToSet`,
  `$pull` or `$set`;
- its default `membership` scope rewrites every listing query according to
  who is calling.

Module `Membership` (`membership.dfy`) holds the state, the creation
defaults, the two array operators and the three handlers. Each handler is a
pure function. It takes the stored state, the caller's id from the request
context and the target id. It returns either a failure or the state the
store holds after the update. The module also proves that the invariants
hold. There are two: the owner is a member, and no account is listed twice.
They hold after each action and after any sequence of requests.

Module `MembershipScope` (`membership_scope.dfy`) models the scope. The
scope changes the query object in place, so the model has a `Query` class
with a map field and a method `ApplyScope` that updates it. The method is
proved against the function `Scoped`. Lemmas about `Scoped` say which
records a scoped query admits.

The model follows the code, not a stricter policy:

- there is no "already a member" error: `$addToSet` is silently idempotent;
- there is no "not a member" error: `$pull` of a non-member changes nothing;
- no check confirms that the target account exists;
- `removeMembers` rejects an owner target before it looks at the caller;
- `transferOwnership` does not require the new owner to be a member
  already. It adds them, and the previous owner stays a member;
- a logged-in caller sees only boards they are a member of. Public boards
  are not added to that listing.

The caller id is `Option<string>`, and `None` stands for an absent id. The
code tests the id for truthiness in two places (creation defaults and the
scope), and there the empty string counts as absent. The code copies the
owner from the caller id even when that id is absent, so `owner` is an
`Option` too. The code compares owner and caller with `!==`, and the model
compares them as `Option` values. On a valid record the owner is present, so
only the owner's own id passes.
`CreateValid` shows what follows from this. A new record satisfies the
invariants exactly when the creator's id is truthy. With the empty id the
record gets owner `""` and no members.

## Model

| member | source | states |
|---|---|---|
| `Membership.Create` | membership.mixin.js:15-34 | the owner is the creator's id; the members hold exactly that id when it is truthy, else none; the record is private |
| `Membership.CreateValid` | membership.mixin.js:15-22 | a new record satisfies the invariants if and only if the creator's id is truthy |
| `Membership.AddToSet` | membership.mixin.js:90-92 | `$addToSet`: the value becomes a member, no other account is added, existing entries keep their places, a present value changes nothing, no duplicates are introduced |
| `Membership.Pull` | membership.mixin.js:133-135 | `$pull`: every occurrence of the value goes, all other accounts stay with their counts, a non-member changes nothing, no duplicates are introduced |
| `Membership.PullConcat` | membership.mixin.js:133-135 | `$pull` acts on each part of a concatenation separately, so the remaining members keep their relative order |
| `Membership.AddMembers` | membership.mixin.js:75-95 | fails with the permission error if and only if the caller is not the owner; otherwise the members become the old members plus the target (appended only if absent), owner and public are unchanged, and the invariants are preserved |
| `Membership.RemoveMembers` | membership.mixin.js:108-138 | an owner target always fails with the owner-removal error, whoever calls; otherwise a non-owner caller gets the permission error; on success the members are the `$pull` of the target: every occurrence of the target is removed and the other members keep their counts and their order, a non-member target changes nothing, owner and public are unchanged, and the invariants are preserved |
| `Membership.TransferOwnership` | membership.mixin.js:151-176 | fails with the transfer permission error if and only if the caller is not the owner; on success the new id is the owner; the members are unchanged if the new owner already was one, and otherwise gain the new owner at the end; the previous owner stays a member; public is unchanged, and the invariants are preserved |
| `Membership.AddMembersIdempotent` | membership.mixin.js:86-95 | adding the same member a second time changes nothing |
| `Membership.RemoveMembersIdempotent` | membership.mixin.js:129-138 | removing the same member a second time changes nothing |
| `Membership.NonOwnerIsRefused` | membership.mixin.js:77-162 | on any record, a caller who is not the owner is refused by all three actions; removing the owner reports the owner-removal error, not the permission error |
| `Membership.FormerOwnerRemovable` | membership.mixin.js:110-176 | after a transfer, the new owner may remove the former owner |
| `Membership.Step` | membership.mixin.js:75-176 | a failed action leaves the stored state unchanged; every action keeps a valid record valid |
| `Membership.RunPreservesValid` | membership.mixin.js:66-178 | any sequence of requests, successful or not, keeps a valid record valid |
| `Membership.RunByOthersIsInert` | membership.mixin.js:77-162 | a sequence of requests from callers who are not the owner leaves the record unchanged |
| `Membership.HandOverScenario` | membership.mixin.js:66-178 | create by u1, add u2, a refused self-removal, transfer to u2, and removal of u1 by u2 leave owner u2 with members [u2] |
| `MembershipScope.Scoped` | membership.mixin.js:41-51 | keys other than `members` and `public` are unchanged; with a truthy caller `members` becomes the caller and `public` is untouched; with a context but no truthy caller `public` becomes true and `members` is untouched; with no context the query is unchanged |
| `MembershipScope.ApplyScope` | membership.mixin.js:41-51 | updates the query object in place to `Scoped` of its old contents; returns nothing when there is no context, and otherwise returns the same query object |
| `MembershipScope.CallerSeesMemberships` | membership.mixin.js:44-45 | with a logged-in caller a record is admitted on `members` if and only if the caller is a member; a public record of which the caller is not a member is not admitted |
| `MembershipScope.AnonymousSeesPublic` | membership.mixin.js:46-48 | with a context but no logged-in caller a record is admitted on `public` if and only if it is public; the `members` condition is what the query already had |

## Left out

- Persistence through `updateEntity`, with its `permissive` and `raw` options and the async promise plumbing. The store is external, so the model gives the state the update produces.
- Identity population through `v1.accounts.resolve`. It is a remote call that only enriches the output.
- REST routes, parameter-schema validation, `needEntity` loading and the `permissions` strings. These are framework wiring. The target id is taken to be a string, as the parameter schema demands.
- The error object (`MoleculerClientError`, status 403, code and data). Each throw is a failure kind. The name is never imported in the source file, so at run time each throw would raise a reference error instead. Either way the action fails and nothing is written, and that is what the model states.
- The field flags `readonly` and `required`, and the `empty: false` item rule. The framework enforces them, and the model does not assume that it rejects an absent or empty owner.
- Concurrency, optimistic locking and retries. The mixin has none.
- How the store matches query keys other than `members` and `public`. The scope never writes them, so the model only shows that they keep their values.
