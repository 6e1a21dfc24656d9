# Verification model

A Dafny model of the parts of this shop platform that decide something by themselves: fixed-width
money and quantity arithmetic, the sign-in state machine, the Redis coordination protocols, the
middleware chain that a route policy is translated into, the password-hash codec, and the client
record's life cycle. `dafny verify dfyconfig.toml` checks everything.

## What is modelled

- `Int64`, `Money`, `Allocation`, `MoneyText`, `Uom`: paise and base units as real int64 values that
  wrap. Guards, rounding, the proportional allocator (in place on an array), the decimal parser and
  printer, the unit pool.
- `SessionStore`, `Identity`: the sessions table and the identity repository as objects whose guarded
  SQL statements are single updates, and the service over them. Every method is proved equal to a
  function from state to state.
- `IdentityRuns`, `IdentitySafety`: those functions as the steps of a machine in which service calls,
  the sweeper and the environment (people blocked, memberships changed, logins created) interleave
  freely; the properties are about whole runs.
- `IdentityCalls`: what each call promises, spelt out on the tables: who is refused with what, what a
  success leaves, as whom a token acts, how long a session lasts.
- `Authz`: roles, grants and the one enforcer.
- `Decimal`, `Strings`, `Base64`, `Passwd`, `PasswordPolicy`, `Passphrase`: the self-describing password
  hash, its unpadded strict base64, the password policy and the generated passphrase.
- `Keys`, `Limiter`: key construction and the fixed-window counter with its expiry.
- `Responses`: what a handler may return, the calls that writes, what of them the client receives and
  a recorder on the way remembers.
- `StoredResponse`, `Idempotency`, `IdempotencyRuns`: the stored response as JSON text, the claim and
  replay of a key by one request, and the interleaved Redis commands of many.
- `Policy`, `Middleware`, `Admission`, `Gatekeeping`, `Router`: policy validation, the chain as a list of
  steps folded around a handler, what the fold means and keeps out, and registration. The closures of
  the source are functions here; a loop inside one is a recursion, and the loops that build and fold
  the chain are loops.
- `Onboarding`, `OnboardingRuns`, `Paging`: owners, shops and the one-way confirmation, first as
  service calls, then with the repository calls of several administrators interleaved; keyset pages.

A token stands for its SHA-256, which is taken to be injective; a stored hash verifies exactly the
password that made it; tokens are fresh. The schema is relied on for unique e-mail addresses, unique
session tokens, unique client codes and shop slugs, staff holding only shop roles and vendors only
platform roles. Time is a number passed in; one clock serves everybody.

## Where code and documentation disagree

The code was followed.

- `Sum` and `Add` are said to refuse overflow; two copies of the most negative amount add to zero
  (`Money.AddExact`, `Money.SumExact`).
- The parser is documented as digits with at most two decimals; it also reads inner signs and signed
  fractions, and misreads some (`MoneyText.ParsesWhatIsSigned`, `MoneyText.ReadAsSpeltIff`).
- A split is promised to be fair; small totals over many weights make a part negative
  (`Allocation.NoNegativePartIff`, `Allocation.NegativePartFamily`).
- A share near the end of the range is rounded wrongly without an error (`Money.ApplyBpsExact`).
- The forced password change is also lifted by a rehash on sign-in (`IdentitySafety.ForcedLiftedIff`,
  `IdentitySafety.RaisedCostsLiftForced`).
- The sliding update does not check expiry (`SessionStore.RevivesIff`).
- The access log promises one line per request; a request that panics, or gets no identifier, leaves
  none (`Admission.AccessLogged`, `Admission.PanicLeavesNoLine`).
- A body that cannot be marshalled is said to become a 500; nothing is written, so the client gets an
  empty 200, and on an idempotent route the claim stays (`Responses.PlayedIsIntended`,
  `Idempotency.UnwrittenBlocksRetries`).
- The preflight policy is given its own limit; preflights are answered before any limit is counted
  (`Router.PreflightAsksNothing`).
- A replay is said to reproduce the original response exactly; status and body it does, but a location
  and cookies are lost, and a response without a body gains a content type
  (`Responses.ReplayKeepsHeadersIff`, `Responses.LocationIsLost`).
- A replay is said to be the original response; a run that outlives its claim can save over a newer one
  (`IdempotencyRuns.SupersededSaveIsShown`).
- Owners are said to be refused once a client is confirmed; a call already past its check still adds
  one (`OnboardingRuns.OwnersFrozenIff`).

## Model

| member | source | states |
|---|---|---|
| `Money.AddExact` | internal/platform/money/money.go:120-127 | the sign test of `Add` is exact: it succeeds with the mathematical sum, or refuses, exactly when the sum is in or out of range, except for two copies of the most negative amount |
| `Money.SubExact` | internal/platform/money/money.go:129-130 | `Sub` is exact except where negating the subtrahend first makes it wrong, which is stated exactly |
| `Money.MulQtyExact` | internal/platform/money/money.go:136-148 | the divide-back guard fires exactly when the true product leaves int64 |
| `Money.HalfAwayUnique` | internal/platform/money/money.go:247-258 | at most one integer is a quotient rounded half away from zero, so the rounding specification determines its result |
| `Money.RoundHalfUpExact` | internal/platform/money/money.go:247-258 | the rounding function gives the nearest integer, ties away from zero, if and only if `|num| + |den|/2` fits in int64 or one of two named freak cases of the most negative numerator holds; all numerators, all non-zero denominators |
| `Money.RoundHalfUpOdd` | internal/platform/money/money.go:247-258 | in that range rounding is odd-symmetric |
| `Money.RoundHalfUpMonotone` | internal/platform/money/money.go:247-258 | and monotone in the numerator for a fixed positive denominator |
| `Money.ApplyBpsExact` | internal/platform/money/money.go:155-167 | a share in basis points is refused exactly when the product overflows, and is rounded correctly outside a silent band of 5000 at each end of the range |
| `Money.BpsDrift` | internal/platform/money/money.go:150-167 | rounding n lines and adding differs from rounding the sum by at most (n + 1)/2 paise |
| `Money.Sum` | internal/platform/money/money.go:173-182 | the loop returns the running total, or the index at which an addition failed |
| `Money.ExactTotalFirstExit` | internal/platform/money/money.go:173-182 | the failing index is the first prefix whose mathematical sum leaves the range |
| `Money.SumExact` | internal/platform/money/money.go:173-182 | `Sum` agrees with the mathematical sum, or fails at the first prefix out of range, exactly when the running total never meets the most negative amount with another one still to add |
| `Allocation.AllocateProportionally` | internal/platform/money/money.go:191-239 | the two loops over wrapped int64 compute the specified allocation, refusals included |
| `Allocation.RoundLines` | internal/platform/money/money.go:218-233 | the rounding loop fills every line in place and finds the amount handed out and the largest line |
| `Allocation.WeightTotalExact` | internal/platform/money/money.go:196-205 | the weight total the loop accepts is the mathematical total of the weights |
| `Allocation.AllocationKeepsTotal` | internal/platform/money/money.go:191-239 | for every accepted input the parts add up to the total modulo 2^64: no rounding or wrap loses a paisa |
| `Allocation.FairIff` | internal/platform/money/money.go:211-239 | an accepted split is the fair one exactly when every line but the largest can be rounded without wrapping, a condition a caller can check beforehand |
| `Allocation.AllocationIsFair` | internal/platform/money/money.go:184-239 | while `|total| * weight + weightTotal/2` fits for every weight it succeeds, adds up exactly, and rounds every line but the largest half away from zero |
| `Allocation.AllocationBounds` | internal/platform/money/money.go:184-239 | zero weights get nothing, the largest line is within (m - 1)/2 paise of its exact share, and no part is negative from a total of `(m - 1) * ((m - 2) / 2)` paise on, for m positive weights |
| `Allocation.NoNegativePartIff` | internal/platform/money/money.go:234-238 | no part is negative if and only if the total is not and the other lines as rounded hand out no more than it |
| `Allocation.NegativePartFamily` | internal/platform/money/money.go:234-238 | the bound is sharp for every number of weights from four on: with equal weights and one paisa less the largest line goes to -1; two paise over four weights is the least case |
| `Allocation.WrappedSplitExample` | internal/platform/money/money.go:247-258 | near the end of the range the rounding wraps and an accepted split has two negative parts |
| `Allocation.WeightRefusedAt` | internal/platform/money/money.go:196-205 | the first weight that is negative, or takes the total out of range, decides the refusal |
| `Allocation.SplitRefusals` | internal/platform/money/money.go:191-215 | no weights, nothing but zeros for a sum to be split, and a product out of range are each refused as such |
| `MoneyText.Parse` | internal/platform/money/money.go:67-117 | the step-by-step parser computes the specified result on every text |
| `MoneyText.ParsesWhatIsWritten` | internal/platform/money/money.go:62-117 | for every optional sign, digits, and optional point with one or two digits, padded by any white space, the result is the amount written, refused exactly when it does not fit |
| `MoneyText.AcceptsOnlyWritten` | internal/platform/money/money.go:67-117 | without an inner sign nothing else is accepted |
| `MoneyText.LongFractionRefused` | internal/platform/money/money.go:90-104 | a fraction of no or of three or more characters is refused |
| `MoneyText.ParsesWhatIsSigned` | internal/platform/money/money.go:67-117 | for every outer sign, inner sign, digits and fraction with or without a sign of its own, padded by any white space: whether it is accepted, as an explicit arithmetic condition on its parts, and with which value, wrapped sums included |
| `MoneyText.AcceptsOnlySigned` | internal/platform/money/money.go:67-117 | nothing else is accepted, so the accepted texts and their values are known completely |
| `MoneyText.ReadAsSpeltIff` | internal/platform/money/money.go:106-117 | an accepted text is read as the amount it spells if and only if its paise are not negative and 100 times its rupees needs no wrap |
| `MoneyText.PrintParse` | internal/platform/money/money.go:264-286 | parsing what is printed gives the amount back, for every amount if and only if it is above the most negative one |
| `MoneyText.PrintShape` | internal/platform/money/money.go:264-286 | every amount is printed as a minus if below zero, the rupees, a point and two digits of paise |
| `MoneyText.PrintInjective` | internal/platform/money/money.go:280-286 | different amounts print differently |
| `Uom.OperationsStayWellFormed` | internal/platform/uom/uom.go:96-208 | no operation yields a negative quantity or a quantity without a dimension |
| `Uom.AddExact` | internal/platform/uom/uom.go:161-171 | addition is exact and refuses exactly a clash of dimensions or an overflow |
| `Uom.NewExact` | internal/platform/uom/uom.go:33-105 | a quantity is built exactly of what is not negative, in one of the five dimensions |
| `Uom.SubExact` | internal/platform/uom/uom.go:174-183 | subtraction is exact and refuses exactly a clash of dimensions or a negative difference |
| `Uom.SubUndoesAdd` | internal/platform/uom/uom.go:174-183 | subtracting what was added gives the quantity back |
| `Uom.ToBaseExact` | internal/platform/uom/uom.go:131-146 | conversion to base units refuses exactly the invalid inputs and the overflows |
| `Uom.SaleUnitsRoundTrip` | internal/platform/uom/uom.go:131-158 | converting back undoes every conversion that succeeds |
| `Uom.PacksFitIff` | internal/platform/uom/uom.go:148-158 | n packs fit in a quantity if and only if it shows at least n packs |
| `Uom.TotalSound` | internal/platform/uom/uom.go:161-208 | a total that succeeds is the sum of the base units in the one dimension present |
| `Uom.TotalComplete` | internal/platform/uom/uom.go:161-208 | and it succeeds whenever such a sum exists |
| `Uom.TotalOrderFree` | internal/platform/uom/uom.go:161-208 | reordering the quantities changes neither success nor result |
| `SessionStore.Store.Issue` | internal/platform/session/session.go:103-145 | inserts the row, or refuses a token already present |
| `SessionStore.IssuedLives` | internal/platform/session/session.go:113-145 | a session resolves from its issue until its ttl has run out, as whose it was issued and without a shop |
| `SessionStore.Store.Resolve` | internal/platform/session/session.go:147-188 | answers exactly the live row of the token |
| `SessionStore.Store.Touch` | internal/platform/session/session.go:190-213 | slides the expiry of an unrevoked row after a minute; there is no expiry check |
| `SessionStore.SlideProlongs` | internal/platform/session/session.go:190-213 | a slide prolongs an open session to a full ttl once sixty seconds have passed since the last use named, and does nothing else |
| `SessionStore.Store.SelectShop` | internal/platform/session/session.go:215-242 | binds an unrevoked row to a shop and reports whether it did |
| `SessionStore.BindingSetsTheShop` | internal/platform/session/session.go:215-242 | binding changes nothing of a session but its shop, and nothing of an ended one |
| `SessionStore.Store.Revoke` | internal/platform/session/session.go:244-258 | ends one session |
| `SessionStore.RevokedIsOver` | internal/platform/session/session.go:244-258 | a revoked session never resolves again, and the moment of its first revocation is kept |
| `SessionStore.OthersUntouched` | internal/platform/session/session.go:103-258 | inserting, sliding, binding and revoking one session touch no other |
| `SessionStore.Store.RevokeAll` | internal/platform/session/session.go:260-284 | ends every open session of an identity; the count is exactly the rows it ended |
| `SessionStore.Store.Sweep` | internal/platform/session/session.go:286-310 | removes exactly the expired and the long-revoked rows; the count is what was removed |
| `SessionStore.SweepKeeps` | internal/platform/session/session.go:286-310 | a row stays if and only if it has neither expired nor been revoked for the retention |
| `SessionStore.RevokeAllEndsExactly` | internal/platform/session/session.go:260-284 | no session of the identity resolves afterwards, every other row is untouched, and a second call ends nothing |
| `SessionStore.SweepIsInvisible` | internal/platform/session/session.go:286-310 | for fresh tokens and a clock that does not go back, a store swept at any moments answers every lookup as one never swept, provided a session is touched only after it resolved |
| `SessionStore.SweptReports` | internal/platform/session/session.go:215-310 | after such a run the other calls report the same too, except for open rows swept because they had expired: binding one to a shop succeeds unswept alone, and the counts of `RevokeAll` differ by exactly their number |
| `SessionStore.LapsedIsReportedExample` | internal/platform/session/session.go:215-284 | such a row: an expired session can still be bound and is still counted until it is swept |
| `SessionStore.RevivesIff` | internal/platform/session/session.go:190-213 | a slide brings a dead session back if and only if its row is there, unrevoked and expired, and a minute has passed since the last use named |
| `SessionStore.StaleTouchExample` | internal/platform/session/session.go:190-213 | so touching an expired session without resolving it first makes the sweep visible |
| `Identity.MembershipAtSound` | internal/identity/repository.go:154-165 | a shop membership is found if and only if an active one of that shop exists |
| `Identity.ActivesSound` | internal/identity/service.go:481-489 | the filtered memberships are exactly the active ones |
| `Identity.ActiveOnly` | internal/identity/service.go:481-489 | the loop computes that filter |
| `Identity.Repository.FindByEmail` | internal/identity/repository.go:59-72 | under the unique index a person is found if and only if one has the address, and it is the only one |
| `IdentityRuns.IndexKept` | internal/identity/repository.go:59-72 | every step of a run keeps that index, new logins included |
| `Identity.Repository.MembershipIn` | internal/identity/repository.go:154-165 | the search returns the first active membership of the shop |
| `Identity.Repository.RecordFailedLogin` | internal/identity/repository.go:208-221 | adds one failure and sets the lock when one is given |
| `Identity.Repository.RecordSuccessfulLogin` | internal/identity/repository.go:224-236 | clears the counter and the lock |
| `Identity.Repository.RecordReauth` | internal/identity/repository.go:243-253 | stamps the re-authentication and nothing else |
| `Identity.Repository.UpdatePassword` | internal/identity/repository.go:261-278 | replaces the hash and also releases the forced change, the expiry, the counter and the lock |
| `Identity.Service.RecordFailure` | internal/identity/service.go:431-441 | counts a failure and locks for fifteen minutes from the fifth on |
| `Identity.Service.RehashIfNeeded` | internal/identity/service.go:444-458 | replaces a flagged hash through the same update |
| `Identity.Service.DoAuthenticate` | internal/identity/service.go:84-178 | the call changes people and sessions exactly as specified, on every path |
| `Identity.Service.DoSelectShop` | internal/identity/service.go:181-218 | likewise for choosing a shop |
| `Identity.Service.DoChangePassword` | internal/identity/service.go:221-267 | likewise for a password change |
| `Identity.Service.DoReauth` | internal/identity/service.go:279-317 | likewise for re-authentication |
| `Identity.Service.DoSignOut` | internal/identity/service.go:320-322 | ends the session |
| `Identity.Service.DoSignOutEverywhere` | internal/identity/service.go:325-331 | ends every session of its owner and counts them |
| `Identity.Service.DoResolve` | internal/identity/service.go:337-410 | answers the actor behind a token, as specified |
| `IdentityCalls.SignInRefusals` | internal/identity/service.go:84-129 | each refusal of a sign-in has exactly its reason, in this order, and success exactly what is left |
| `IdentityCalls.SignInLeaves` | internal/identity/service.go:124-148 | a sign-in leaves a clean counter, no lock, a strong hash of the same password, and everyone else untouched |
| `IdentityCalls.SignInIssues` | internal/identity/service.go:131-170 | and a staff session of a full ttl, bound to a shop if and only if that is the sole active membership, no change is forced and the person is not the vendor's |
| `IdentityCalls.SignInTells` | internal/identity/service.go:150-170 | the caller is told the active memberships, the vendor roles, the forced change, and to choose exactly when two memberships are active |
| `IdentityCalls.WrongGuessIff` | internal/identity/service.go:84-119 | a wrong password is counted exactly when it is presented for someone active and unlocked |
| `IdentityCalls.WrongGuessLeaves` | internal/identity/service.go:431-441 | it counts one failure, locks for fifteen minutes from the fifth on, and leaves all else alone |
| `IdentityCalls.FewGuessesLockNobody` | internal/identity/service.go:431-441 | in any run fewer than five wrong guesses lock nobody who started clean |
| `IdentityCalls.ReauthRefusals` | internal/identity/service.go:279-298 | each refusal of a re-authentication has exactly its reason |
| `IdentityCalls.ReauthsIff` | internal/identity/service.go:279-317 | re-authentication succeeds exactly for a live session of its owner, active and unlocked, with the right password |
| `IdentityCalls.ReauthLeaves` | internal/identity/service.go:299-310 | it is stamped, clears the counter and the lock, and does nothing else |
| `IdentityCalls.ChangeRefusals` | internal/identity/service.go:221-243 | each refusal of a password change has exactly its reason, and changes nothing |
| `IdentityCalls.ChangeLeaves` | internal/identity/service.go:244-260 | a change leaves the new password and nothing forced, expiring, counted or locked; every session of the person is over, nobody else's is |
| `IdentityCalls.ShopRefusals` | internal/identity/service.go:181-218 | each refusal of a choice of shop has exactly its reason, and success answers the first active membership |
| `IdentityCalls.SignOutsLeave` | internal/identity/service.go:320-331 | signing out ends the session presented and no other; everywhere, exactly its owner's open ones, counted |
| `IdentityCalls.ActorIs` | internal/identity/service.go:337-410 | as whom a token acts: its owner, of the session's kind, with the last re-authentication, and exactly the roles of the first that applies of none while forced, the vendor's, none without a shop, those of the first active membership in it |
| `IdentityCalls.SignedInIsSomebody` | internal/identity/service.go:84-178 | a fresh token acts as its owner from the sign-in until the ttl has run out |
| `IdentityCalls.SessionLasts` | internal/platform/session/session.go:103-188 | in any run after a sign-in the token stays a live session of that person until the ttl has run out, unless it or all of the person's are ended |
| `IdentityCalls.FirstLoginLeaves` | internal/onboarding/repository.go:357-403 | a first login is an active owner of its shop alone, with a change forced and a password that expires |
| `IdentityRuns.StepPerson` | internal/identity/service.go:84-458 | in one step of any run a person changes only by a sign-in, a re-authentication, a password change, a counted failure or a status change, and exactly so |
| `IdentityRuns.StepNewcomer` | internal/onboarding/repository.go:357-403 | a person who appears is a new login, forced to change the password |
| `IdentityRuns.LockoutBound` | internal/identity/service.go:431-441 | in any stretch of any run without a success, at most 5 + T/15 min wrong passwords are evaluated for a person by sign-in and re-authentication together in an interval of length T |
| `IdentityRuns.LockedAttemptsChangeNothing` | internal/identity/model.go:62-77 | an attempt during a lock is not evaluated and changes nothing |
| `IdentityRuns.LockLiftedOnlyByPasswordChange` | internal/identity/service.go:221-267 | a lock in force ends early if and only if the password is changed |
| `IdentityRuns.LocksStayBounded` | internal/identity/service.go:431-441 | no lock ever reaches more than fifteen minutes ahead |
| `IdentityRuns.RightPasswordSignsIn` | internal/identity/service.go:84-178 | the right password signs in if and only if the person is active, not locked, and the password has not expired |
| `IdentityRuns.SignsInIff` | internal/identity/service.go:84-178 | exactly what a sign-in has to present, and how the person has to stand |
| `IdentityRuns.ChangesPasswordIff` | internal/identity/service.go:221-267 | exactly what a password change has to present; how the person stands is not asked |
| `IdentitySafety.EndedForever` | internal/platform/session/session.go:244-284 | once a session has ended no later sequence of steps makes its token resolve again |
| `IdentitySafety.FreshNeverReissues` | internal/platform/session/session.go:113-145 | fresh tokens are what the previous statement needs |
| `IdentitySafety.EndingCalls` | internal/identity/service.go:221-331 | signing out ends the session; signing out everywhere, a revocation and a successful password change end every session of their owner |
| `IdentitySafety.StepPassword` | internal/identity/service.go:444-458 | in every step the password that verifies stays the same, rehash included, unless it is successfully changed |
| `IdentitySafety.OldPasswordIsDead` | internal/identity/service.go:221-267 | after a successful change the old password signs nobody in as that person until the password is changed again |
| `IdentitySafety.StaffOnlyAlways` | internal/identity/service.go:131 | only staff sessions are ever issued |
| `IdentitySafety.ForcedMeansPowerless` | internal/identity/service.go:370-376 | while a change is forced a session carries no roles, every action is refused and no shop can be chosen |
| `IdentitySafety.ForcedLiftedIff` | internal/identity/service.go:444-458 | a forced change is lifted if and only if the event earns a password change, or a sign-in by a person whose hash is flagged, both as conditions that can be checked beforehand |
| `IdentitySafety.ForcedUntilChanged` | internal/identity/service.go:221-267 | so from a hash that is never flagged only a successful change ever lifts it |
| `IdentitySafety.RaisedCostsLiftForced` | internal/identity/service.go:444-458 | a run that sheds the lock: a login is created, the hasher's costs are raised, and the first sign-in with the issued password leaves nothing forced |
| `IdentitySafety.NewLoginIsForced` | internal/onboarding/repository.go:357-403 | a new login starts forced, with a hash that is not flagged |
| `IdentitySafety.BoundThroughMembership` | internal/identity/service.go:164-210 | in every reachable state a session's shop was an active membership of its owner at the very step that bound it: before that step it was absent or carried another shop, ever since it carries this one |
| `IdentitySafety.ShopChosenIff` | internal/identity/service.go:181-218 | a shop is chosen if and only if the session is live, its owner may act and is an active member of that shop; then only its own row is bound |
| `IdentitySafety.ResolvesIff` | internal/identity/service.go:337-410 | a token yields an actor if and only if its session is live, its owner may sign in, and the shop it is bound to still has the owner as an active member |
| `IdentitySafety.RolesComeFrom` | internal/identity/service.go:337-410 | an actor's roles come from the vendor table or from a membership active now in exactly the session's shop |
| `IdentitySafety.WorldsStayApart` | internal/identity/repository.go:116-201 | the division of shop and platform roles is kept by every run whose grants respect it |
| `IdentitySafety.NoActorSpansWorlds` | internal/platform/authz/authz.go:322-419 | then no resolved actor is ever allowed both a shop action and a platform action |
| `Authz.CheckRolesIff` | internal/platform/authz/authz.go:515-525 | the role search succeeds if and only if some role grants the action |
| `Authz.CanIff` | internal/platform/authz/authz.go:462-512 | permission is exactly ownership for customers and guests and a granting role for staff and workers; every other kind is refused |
| `Authz.GrantedIff` | internal/platform/authz/authz.go:319-452 | the grant table role by role is the table of holders action by action |
| `Authz.LeastPrivilege` | internal/platform/authz/authz.go:78-138 | counter, delivery and data-entry staff reach no delicate action, users and tax rates are the owner's and administrator's alone, every action has a holder and no role has all |
| `Authz.ReauthWindow` | internal/platform/authz/authz.go:285-295 | a re-authentication counts exactly from its moment to the end of the window |
| `Authz.WorldsAreDisjoint` | internal/platform/authz/authz.go:322-419 | no platform role grants a shop action and no shop role a platform action |
| `Authz.OneWorldActor` | internal/platform/authz/authz.go:462-525 | an actor with roles of one world is never allowed an action of each |
| `Base64.DecodeEncode` | internal/platform/passwd/passwd.go:110-124 | unpadded base64 gives every byte string back |
| `Base64.EncodeDecode` | internal/platform/passwd/passwd.go:186-200 | strict decoding accepts, line breaks aside, only the encoding of its result (sections 3.2, 3.5 and 4 of RFC 4648) |
| `Base64.AlphabetIs` | internal/platform/passwd/passwd.go:110-124 | the symbols are those of Table 1 of RFC 4648 |
| `Base64.GroupIsNumber` | internal/platform/passwd/passwd.go:110-124 | a group is one number in base 256 and in base 64, short groups filled with zero bits (section 4 of RFC 4648) |
| `Base64.BreaksAppend` | internal/platform/passwd/passwd.go:186-200 | with `BreaksOne`, line breaks are all that decoding reads over |
| `Passwd.DecodePhc` | internal/platform/passwd/passwd.go:169-203 | the decoder that fills the parameters field by field computes the specified result |
| `Passwd.SplitHashText` | internal/platform/passwd/passwd.go:110-124 | no field of a printed hash can contain the separator |
| `Passwd.DecodeHashText` | internal/platform/passwd/passwd.go:110-203 | decoding a printed hash gives back its parameters, salt and key, for all of them |
| `Passwd.DecodeHashIff` | internal/platform/passwd/passwd.go:169-203 | a text in this layout is decoded if and only if algorithm and version are the one known, the costs fit and salt and key are there |
| `Passwd.UnreadableVerifiesNothing` | internal/platform/passwd/passwd.go:132-166 | what cannot be decoded verifies nothing and is to be replaced |
| `Passwd.OwnHashNeedsNoRehash` | internal/platform/passwd/passwd.go:156-166 | a hasher never flags its own output |
| `Passwd.HashVerifies` | internal/platform/passwd/passwd.go:132-147 | a printed hash verifies exactly the passwords that derive the same key |
| `Passwd.RaisedCostFlags` | internal/platform/passwd/passwd.go:156-166 | raising the costs flags exactly the hashes below one of the new costs |
| `PasswordPolicy.AcceptableIff` | internal/platform/passwd/passwd.go:205-239 | a password is accepted if and only if it has 10 to 256 characters, is not all space or all digits, and is no common password in any disguise of case, trailing digits and signs, and surrounding space |
| `PasswordPolicy.DisguiseIsCommon` | internal/platform/passwd/common.go:5-29 | a common password is found out in any such disguise |
| `Passphrase.Generate` | internal/platform/passwd/passwd.go:316-336 | the builder loop joins one listed word per random byte, and refuses fewer than three |
| `Passphrase.GeneratedSpells` | internal/platform/passwd/passwd.go:316-336 | the words, in order, are those the random bytes stand for |
| `Passphrase.GeneratedDistinct` | internal/platform/passwd/passwd.go:300-315 | different random bytes give different phrases, so each word carries its eight bits |
| `Passphrase.GeneratedAcceptable` | internal/platform/passwd/passwd.go:222-239 | every generated phrase of 3 to 25 words meets the password policy |
| `Keys.RateLimitInjective` | internal/platform/redis/keys.go:46-48 | distinct (scope, subject, window) never share a counter, even when the subject contains colons |
| `Keys.NamespacesDisjoint` | internal/platform/redis/keys.go:46-59 | counters and stored responses never share a key |
| `Keys.OwnKeysDistinct` | internal/platform/redis/keys.go:54-59 | an actor's own keys never collide |
| `Keys.NamesInFull` | internal/platform/redis/keys.go:42-59 | the names as they stand in Redis |
| `Keys.ActorsShareCellIff` | internal/platform/redis/keys.go:50-59 | two actors can reach one cell if and only if one name followed by a colon begins the other |
| `Keys.ColonFreeActorsApart` | internal/platform/redis/keys.go:50-59 | so identifiers without a colon never collide |
| `Limiter.Server.FixedWindow` | internal/platform/redis/client.go:96-112 | the script as its Redis commands: increment, expire on first use, time left |
| `Limiter.Allow` | internal/platform/redis/client.go:130-171 | one call counts and answers as specified, refusing invalid rules |
| `Limiter.ValidateIff` | internal/platform/ratelimit/ratelimit.go:66-78 | a rule passes exactly with a known scope, a positive limit and a positive window |
| `Limiter.WholeMilliseconds` | internal/platform/redis/client.go:135-139 | a window counts in whole milliseconds, a rest dropped towards zero |
| `Limiter.PanicsIff` | internal/platform/redis/client.go:135-136 | it divides by zero exactly for valid rules with a window under a millisecond |
| `Limiter.CountIsExact` | internal/platform/redis/client.go:96-112 | expiry never resets a count inside its own bucket: the counter is exactly the number of requests so far |
| `Limiter.AllowedIff` | internal/platform/redis/client.go:123-171 | a request is allowed if and only if fewer than its limit came before it in the bucket; the wait it is told reaches the bucket's end |
| `Limiter.WaitIsAtMostAWindow` | internal/platform/redis/client.go:149-157 | when no request comes before its time, the wait is positive and at most a window |
| `Limiter.WaitIsExact` | internal/platform/redis/client.go:105-112 | the wait told is exactly what is left of a window from the first request in the bucket |
| `Limiter.BucketAdmitsLimit` | internal/platform/redis/client.go:123-171 | n requests in a bucket admit exactly min(n, limit) where one rule uses the counter |
| `Limiter.BucketAdmitsAtMost` | internal/platform/redis/client.go:123-171 | whatever other rules share the counter, a bucket admits at most the limit |
| `Limiter.WindowAdmitsTwiceLimit` | internal/platform/redis/client.go:123-129 | any half-open interval one window long admits at most twice the limit, beside any other rules on the same subject |
| `Limiter.NeverMeetIff` | internal/platform/redis/client.go:135-136 | two rules on one subject never meet in a counter between two moments if and only if their windows are equal or the longer window's bucket numbers have not reached the shorter's |
| `Limiter.RealClocksAreRegular` | internal/platform/redis/client.go:135-136 | so requests are regular for as long as that holds of every two rules on a subject |
| `Limiter.ClashingWindowsExample` | internal/platform/redis/client.go:105-112 | close to the epoch a one-second and a three-second rule do share a counter, and the count is lost inside the longer bucket |
| `StoredResponse.DecodeEncode` | internal/platform/redis/client.go:188-246 | what was stored comes back with its status and its body, bytes that are no UTF-8 replaced |
| `StoredResponse.ReplayExactIff` | internal/platform/redis/client.go:188-193 | status and body in the store come back as they were if and only if the bytes are UTF-8; headers are not stored |
| `StoredResponse.PayloadIsNotMarker` | internal/platform/redis/client.go:248-249 | no stored response can be taken for the claim marker |
| `StoredResponse.TextInFull` | internal/platform/redis/client.go:188-193 | the text as it stands in Redis |
| `Idempotency.Store.Lookup` | internal/platform/redis/client.go:195-234 | claims a free key, or answers what the key holds |
| `Idempotency.Store.Save` | internal/platform/redis/client.go:236-246 | stores the response for a further day |
| `Idempotency.Recorder.WriteHeader` | internal/platform/httpx/middleware.go:668-671 | the recorder forwards the call and remembers what it recorded |
| `Idempotency.Recorder.Write` | internal/platform/httpx/middleware.go:673-679 | likewise for data |
| `Responses.RecordsWhatIsSent` | internal/platform/httpx/middleware.go:661-679 | for any calls on the recorder, the recording is what the client received if and only if a status was sent and the first one stood |
| `Responses.FirstStatusWins` | internal/platform/httpx/middleware.go:661-679 | of two statuses the first is on the wire and the second recorded |
| `Responses.PlayedIsIntended` | internal/platform/httpx/response.go:66-120 | whatever a handler returns, short of a panic, sets at most one status; what is sent and what is recorded is what was asked for, with its headers, if and only if its body can be marshalled; else an empty 200 is sent and no status recorded |
| `Responses.AnswerIsSent` | internal/platform/httpx/response.go:66-89 | what the client gets for each answer: as given, but no body with a 204, an empty 200 for a body that cannot be marshalled, and a panic for a status out of range |
| `Responses.UsualAnswers` | internal/platform/httpx/response.go:28-44 | the three usual answers as they are sent |
| `Responses.SucceedsIff` | internal/platform/httpx/middleware.go:717-723 | a response is kept exactly for a 2xx answer that can be marshalled, or a 2xx error |
| `Responses.ReplayedHeaders` | internal/platform/httpx/middleware.go:704-711 | the headers of a replay are the content type and the replay mark; those the client first received are the answer's own, its cookies, and with a body content type and length |
| `Responses.ReplayKeepsHeadersIff` | internal/platform/httpx/middleware.go:704-711 | so the headers come back, length and mark aside, if and only if the answer set no cookie and no header but those two, and names the content type itself where it has no body |
| `Responses.LocationIsLost` | internal/platform/httpx/response.go:31-39 | the replay of a `Created` response never has its location |
| `Responses.HeadersArrive` | internal/platform/httpx/response.go:66-89 | an answer's own headers arrive with the value set last |
| `Responses.CookiesArrive` | internal/platform/httpx/response.go:66-89 | its cookies arrive all and in order |
| `Responses.BodyIsDescribed` | internal/platform/httpx/response.go:84-87 | a body goes with its type and its length in bytes |
| `Responses.FailureHeaders` | internal/platform/httpx/response.go:96-119 | an error says when to come back exactly if there is a time to say |
| `Idempotency.WriteAnswer` | internal/platform/httpx/response.go:66-89 | writing a response on the recorder makes the specified calls, stops before any status when marshalling fails, and panics on a status out of range |
| `Idempotency.WriteFailure` | internal/platform/httpx/response.go:91-120 | likewise for an error |
| `Idempotency.WriteEnding` | internal/platform/httpx/group.go:326-348 | the result, the error or the panic of a handler, played on the recorder |
| `Idempotency.Handle` | internal/platform/httpx/middleware.go:681-726 | one request through the middleware changes the store and answers as specified |
| `Idempotency.RetryReplays` | internal/platform/httpx/middleware.go:681-726 | a retry within a day of a success runs nothing, changes nothing, and is sent exactly the status and body that were sent first |
| `Idempotency.FailureBlocksRetries` | internal/platform/httpx/middleware.go:717-723 | an attempt that was no success leaves its claim: retries are refused for a day |
| `Idempotency.UnwrittenBlocksRetries` | internal/platform/httpx/response.go:79-82 | so does any answer whose body cannot be marshalled: its client gets an empty 200 |
| `Idempotency.OtherActorsUntouched` | internal/platform/redis/keys.go:50-59 | a request touches no other actor's stored responses |
| `Idempotency.HeldForADay` | internal/platform/redis/keys.go:9-31 | what is written under a key is found there for exactly a day |
| `Idempotency.BadKeyIff` | internal/platform/httpx/middleware.go:688-693 | a key is refused unread if and only if it is empty or longer than 128 bytes |
| `IdempotencyRuns.GetThenSetNXIsLookup` | internal/platform/redis/client.go:205-234 | undisturbed, the two Redis commands are the lookup |
| `IdempotencyRuns.RunSound` | internal/platform/redis/client.go:205-246 | in every interleaving of any number of requests: the cell is the last write, claims wait for it to expire, a request runs once, every save stores its own success, every replay shows the last save |
| `IdempotencyRuns.GetAnswers` | internal/platform/redis/client.go:205-234 | a first lookup is decided by the last write while its day lasts: refused after a claim, replayed exactly what a save stored |
| `IdempotencyRuns.RunsWaitForExpiry` | internal/platform/redis/client.go:220-246 | while the key has not expired the handler runs at most once: a claim comes a day or more after every earlier claim and every earlier save, and no stored text is ever misread |
| `IdempotencyRuns.ReplayShowsTheSave` | internal/platform/redis/client.go:205-246 | every replay shows the last save, which stored the response of a successful run of its own |
| `IdempotencyRuns.TimelyIsNeverSuperseded` | internal/platform/redis/client.go:236-246 | runs that save within a day of their claim are never superseded |
| `IdempotencyRuns.NeverSupersededIff` | internal/platform/redis/client.go:236-246 | no save comes after another claim if and only if every save in the log is by the claim in force |
| `IdempotencyRuns.ReplayIsTheRun` | internal/platform/redis/client.go:205-246 | as long as no save is superseded, every replay is the response of the one success of the claim in force |
| `IdempotencyRuns.SaveIsReplayedForADay` | internal/platform/redis/client.go:236-246 | then for a day after a save every first lookup is replayed exactly the response saved |
| `IdempotencyRuns.SupersededSaveIsShown` | internal/platform/redis/client.go:236-246 | the condition is exact: after one superseded save the next first lookup is shown the saver's response although another claim is in force |
| `IdempotencyRuns.ReplaysAgree` | internal/platform/redis/client.go:205-246 | so between two claims all replays are the same |
| `IdempotencyRuns.ClaimHoldsTheKey` | internal/platform/httpx/middleware.go:717-723 | for a day after a claim nobody else claims, and nobody is replayed anything but the response of the claimant's own success |
| `IdempotencyRuns.OverrunExample` | internal/platform/redis/client.go:236-246 | a run that outlives its claim saves over a newer success, and a retry is shown the stale response |
| `Policy.Validate` | internal/platform/policy/policy.go:167-225 | reports every fault and nothing else; empty exactly for a valid policy |
| `Policy.ValidIff` | internal/platform/policy/policy.go:167-225 | what a valid policy is, said positively |
| `Policy.RuleFaults` | internal/platform/ratelimit/ratelimit.go:97-105 | the loop reports exactly the faulty rules |
| `Middleware.RulesForScope` | internal/platform/httpx/middleware.go:734-743 | the filter loop returns exactly the rules of the scope, in order |
| `Middleware.Chain` | internal/platform/httpx/middleware.go:51-112 | the appended steps are those of the declared checks, in the order of the checks |
| `Middleware.Fold` | internal/platform/httpx/group.go:254-258 | the descending loop folds the whole chain around the handler |
| `Admission.FoldedGates` | internal/platform/httpx/group.go:254-258 | a fold of steps that decide first is running them in order and then the rest |
| `Admission.SieveMeans` | internal/platform/httpx/middleware.go:51-112 | step by step the folded checks object exactly as declared |
| `Admission.ServedMeans` | internal/platform/httpx/middleware.go:51-112 | the folded chain means its declaration: the reply is the first objection in order; with none the handler runs once, as the declared actor, and the reply is its own |
| `Admission.HandlerRunsIff` | internal/platform/httpx/middleware.go:51-112 | the handler runs if and only if every declared check passes |
| `Admission.PermissionMeansGrantedStaff` | internal/platform/httpx/middleware.go:590-608 | under a valid policy with a permission the handler runs only for staff holding a role that grants it |
| `Admission.OwnershipMeansOwner` | internal/platform/httpx/middleware.go:615-660 | a customer's ownership route runs only for the owner on record |
| `Admission.ReauthOnlyAfterAuthority` | internal/platform/httpx/middleware.go:94-102 | a re-authentication refusal goes only to staff who passed permission and ownership |
| `Admission.LimitBeforeSession` | internal/platform/httpx/middleware.go:71-80 | the session store is asked only once every address and subject limit has let the request through |
| `Admission.LedgerIsLast` | internal/platform/httpx/middleware.go:105-109 | the idempotency ledger is consulted only for a request every other check admits |
| `Admission.ForgedAddressChangesNothing` | internal/platform/httpx/middleware.go:142-162 | a forwarded address no trusted proxy vouches for changes no verdict |
| `Gatekeeping.FullChain` | internal/platform/httpx/middleware.go:51-112 | with every protection declared, the seventeen steps in order |
| `Gatekeeping.WebhookChain` | internal/platform/httpx/middleware.go:51-112 | and those of a webhook |
| `Gatekeeping.RulesForAppend` | internal/platform/httpx/middleware.go:735-743 | with `RulesForOne`, the rules of a scope keep their order and number |
| `Gatekeeping.RefusalStatus` | internal/platform/httpx/errors.go:74-172 | what each refusal is sent as |
| `Gatekeeping.CsrfObjects` | internal/platform/httpx/middleware.go:487-513 | the check refuses with 403 exactly a request other than GET, HEAD or OPTIONS whose header is not the cookie's token |
| `Gatekeeping.NoForgedWrite` | internal/platform/httpx/middleware.go:487-513 | a write reaches a protected handler only with the matching token |
| `Gatekeeping.SignedInMeansSession` | internal/platform/httpx/middleware.go:450-562 | a route for signed-in people runs only for whom the session store knows by the cookie, of the kind asked |
| `Gatekeeping.NobodyIsAGuest` | internal/platform/httpx/middleware.go:450-479 | without a known session everybody is a guest without name or roles, whom only guest routes admit |
| `Gatekeeping.WebhookMeansVerified` | internal/platform/httpx/middleware.go:418-443 | a webhook runs only on a body the verifier vouched for, as whom it says |
| `Gatekeeping.ReauthIsRecent` | internal/platform/httpx/middleware.go:570-587 | a route that asks for it runs only within the window of a re-authentication, both ends included |
| `Gatekeeping.OwnershipForStaff` | internal/platform/httpx/middleware.go:614-658 | staff reach an owned resource only with a role for the route's action, or for reading its kind |
| `Gatekeeping.ReadActionIs` | internal/platform/httpx/middleware.go:640-643 | the read action of a kind is the one of that name |
| `Gatekeeping.ForwardedClient` | internal/platform/httpx/middleware.go:142-162 | behind a trusted proxy the client is the left-most forwarded address, trimmed |
| `Gatekeeping.PeerIsClient` | internal/platform/httpx/middleware.go:142-162 | otherwise it is the peer |
| `Gatekeeping.KeyIsNeeded` | internal/platform/httpx/middleware.go:683-703 | an idempotent route runs only with a key of 1 to 128 bytes that the ledger lets it claim |
| `Gatekeeping.DeadlineIsThePolicys` | internal/platform/httpx/middleware.go:240-254 | a request may take as long as its policy says, or as the router's own limit |
| `Gatekeeping.OnlyDeclaredIsAsked` | internal/platform/httpx/middleware.go:51-112 | nothing is asked of the outside world that the policy does not declare, and the limiter only about its own rules |
| `Admission.AccessLogged` | internal/platform/httpx/middleware.go:191-238 | exactly one access line, last, with the status sent, for every request with an identifier in which neither limiter nor handler panics; none otherwise |
| `Admission.StatusesStand` | internal/platform/httpx/middleware.go:191-210 | every reply, of the chain or of a handler, lets its first status stand |
| `Admission.PanicIsNotLogged` | internal/platform/httpx/middleware.go:164-189 | a request whose handler panics gets a 500 and leaves no access line |
| `Admission.PanicLeavesNoLine` | internal/platform/httpx/middleware.go:212-238 | such a request exists, on a valid public route |
| `Admission.SavedIsSent` | internal/platform/httpx/middleware.go:715-723 | a response is saved if and only if the request is admitted, the route idempotent and the handler's ending a success, and it is exactly what the client was sent |
| `Router.RequirementsFor` | internal/platform/httpx/group.go:301-325 | reports exactly the dependencies the policy needs and the router lacks |
| `Router.Table.Register` | internal/platform/httpx/group.go:240-262 | a route is accepted if and only if its policy is valid and supplied; every handler on the mux stays protected and every pattern answers preflights |
| `Router.Table.RegisterPreflight` | internal/platform/httpx/group.go:276-296 | the first route on a pattern brings its OPTIONS handler; later ones change nothing |
| `Router.PreflightIsValid` | internal/platform/policy/catalogue.go:57-62 | the preflight policy is valid and needs nothing |
| `Router.PreflightAsksNothing` | internal/platform/httpx/middleware.go:336-339 | a preflight is answered at the CORS step, so its policy's own limit is never counted |
| `Router.RegisteredPermissionHolds` | internal/platform/httpx/group.go:237-262 | an accepted route with a permission runs its work only for staff who hold it |
| `Router.RegisteredWorkReplies` | internal/platform/httpx/group.go:248-258 | an accepted route replies to every admitted request with the ending of the very handler registered |
| `Router.RegisteredAsksWhatIsThere` | internal/platform/httpx/group.go:298-325 | an accepted route never asks a dependency the router does not have |
| `Onboarding.Repository.InsertOwner` | internal/onboarding/repository.go:223-237 | appends an owner |
| `Onboarding.Repository.InsertShop` | internal/onboarding/repository.go:291-305 | appends a shop, or refuses a slug in use |
| `Onboarding.Repository.WriteConfirmation` | internal/onboarding/repository.go:431-454 | writes only an unconfirmed row, and says so otherwise |
| `Onboarding.Service.DoAddOwner` | internal/onboarding/service.go:116-141 | changes the tables exactly as specified, on every path |
| `Onboarding.Service.DoProvisionShop` | internal/onboarding/service.go:148-185 | likewise; a shop takes from its client what it does not name |
| `Onboarding.Service.DoConfirm` | internal/onboarding/service.go:292-340 | likewise for confirmation |
| `Onboarding.Service.ShopOf` | internal/onboarding/service.go:343-358 | finds a shop of this client with that tenant, and refuses exactly when there is none |
| `Onboarding.Readiness` | internal/onboarding/handler.go:293-331 | the console page lists exactly what is missing and offers the button exactly when nothing is |
| `Onboarding.ReadyMeansConfirmable` | internal/onboarding/service.go:292-340 | the button is offered if and only if confirming now would succeed |
| `Onboarding.AddOwnerIff` | internal/onboarding/service.go:116-141 | an owner is added, last, exactly to a known and unconfirmed client |
| `Onboarding.ProvisionShopIff` | internal/onboarding/service.go:148-185 | a shop is opened, last, exactly for an active client under a slug no shop uses, and takes from the client each detail the input leaves out |
| `Onboarding.ConfirmIff` | internal/onboarding/service.go:292-340 | each refusal of a confirmation in order; a success writes its time and author and nothing else |
| `OnboardingRuns.AddOwnerAlone` | internal/onboarding/service.go:116-141 | undisturbed, the repository calls of the call are the atomic call |
| `OnboardingRuns.ProvisionAlone` | internal/onboarding/service.go:148-185 | likewise for a shop |
| `OnboardingRuns.ConfirmAlone` | internal/onboarding/service.go:292-340 | likewise for a confirmation |
| `OnboardingRuns.ConfirmationIsFinal` | internal/onboarding/repository.go:431-454 | in every interleaving of administrators a confirmed client has a GSTIN or TIN, an owner and a shop, was confirmed exactly once, and its identity and time of confirmation never change |
| `OnboardingRuns.LateOwnersBounded` | internal/onboarding/service.go:111-127 | owners added after confirmation number at most the calls that had read the client before it |
| `OnboardingRuns.OwnersFrozen` | internal/onboarding/service.go:111-127 | with no such call under way the owners are frozen, while shops may grow |
| `OnboardingRuns.OwnersFrozenIff` | internal/onboarding/service.go:111-127 | the owners of a confirmed client are frozen in every continuation if and only if no such call is under way |
| `OnboardingRuns.LateOwnerExample` | internal/onboarding/service.go:116-130 | a call that read the client in time does add an owner after another has confirmed it |
| `OnboardingRuns.SlugsStayApart` | internal/onboarding/repository.go:291-305 | in every interleaving slugs stay unique over all shops |
| `Paging.ListClients` | internal/onboarding/handler.go:254-279 | a page is the query's rows, and the cursor its last code exactly when the page is full; bad sizes are refused |
| `Paging.PageSizeIs` | internal/onboarding/handler.go:254-267 | the size asked for is the one used, from 1 to 200; without one it is 50 |
| `Paging.LessIff` | internal/onboarding/repository.go:163-199 | the order of codes is that of their bytes at the first difference |
| `Paging.WalkListsEverything` | internal/onboarding/repository.go:163-199 | following the cursor until it is empty lists every client once, in code order, in n / limit + 1 requests |
| `Paging.GrowingWalk` | internal/onboarding/repository.go:163-199 | clients registered during a walk cause no repeat and no skip of earlier ones |

## Left out

- PostgreSQL, transactions, row-level security and the Redis wire: each guarded statement or command is one atomic step on a map.
- Errors of the stores themselves, except where the source turns them into an answer (limiter, session store, owner lookup and ledger in the chain).
- Argon2id, SHA-256 and the random source: abstract functions and parameters; timing equality and constant-time comparison cannot be stated about inputs and outputs.
- Finer interleavings inside one identity call, such as a sign-in racing a password change: runs are over atomic calls.
- IdentityRuns.LockoutBound: does not count wrong current passwords in a password change, because that call neither counts nor checks the lock.
- SessionStore.SweepIsInvisible: needs a session to be touched only after it resolved at the same moment; the slide has no caller in the service.
- Limiter.CountIsExact: needs requests that meet in one counter to share their window, for which `Limiter.NeverMeetIff` gives the exact condition and `Limiter.ClashingWindowsExample` shows to be needed; clocks of router and Redis are one.
- Responses.PlayedIsIntended: a handler that answers with an informational 1xx status, or gives a 304 a body; none does. Header names are taken in canonical form, a cookie as its text, an error with the envelope already made of it.
- StoredResponse.DecodeEncode: reads the layout that is written; other JSON that `json.Unmarshal` would accept, and surrogate pairs in escapes, are not modelled.
- Admission.ServedMeans: headers and envelopes of the chain's own replies, CORS text, security headers, logging detail and the deadline's expiry are not part of a reply; answers of the outside world are given, not computed.
- Router.Table.Register: path matching and the order of the route table; the source panics where the model refuses.
- Paging.ListClients: codes are compared byte by byte, whatever the database's collation; field views are not modelled.
- Onboarding.Service.DoProvisionShop: the uniqueness of shop codes beside slugs, and trimming and casing of the input, are not modelled.
- Passphrase.Generate: the 256 words themselves; any list of different lower-case words of four to nine letters will do.
- Passwd.DecodeHashText: the key derivation and its minimum parameters beyond what the decoder reads.
- Lower-casing in the common-password check is that of ASCII.
- Field validation and regular expressions of onboarding, audit entries, SMS, configuration, health and process wiring: single-function checks and plumbing.
- `FromRupeePaise`, `LessThan`, the JSON form of an amount, `Describe`, and the labels of roles and actions.
