# Sessions and field placement, modelled in Dafny

This project models two parts of a document-signing application.

**The session lifecycle** (`packages/auth/server/lib/session/session.ts`):
- a session token is 20 random bytes written as lower-case, unpadded base 32 (section 6 of RFC 4648);
- the session id is the lower-case hex (section 8 of RFC 4648) of the SHA-256 digest of the token;
- creating a session stores a row that expires in 30 days and writes a SIGN_IN audit entry;
- validating a token deletes an expired session, and renews the expiry to 30 days from now once 15 days or fewer are left;
- invalidating a session deletes its row and writes a SIGN_OUT audit entry.

The store is a value `Db` (a session map keyed by id, a user map and an append-only audit log). Each operation is a step function from the old `Db` to a result and a new `Db`. `Session.SessionStore` is the stateful form: a class holding the same tables. Each of its methods performs the store calls in the source's order and is proved to end in the state its step function describes. SHA-256 of the token's UTF-8 bytes is an injected function `TokenHasher`. The secure random source is an injected byte stream. The clock is a `now` argument in milliseconds. Base 32 and hex are modelled in full (`Encoding`), each with a decoder and a proved round trip.

**The field-placement rules** (`packages/ui/primitives/document-flow/add-fields.tsx`):
- the check for checkbox, radio and dropdown fields with no options, and the list of erroneous fields shown in the warning tooltip;
- the gate that every signer has a signature field before submit;
- grouping recipients by role, and ordering the shown groups by signing order and then id;
- the default signer;
- copy, duplicate, paste and remove of a field, and saving a field's settings.

The pure parts are functions over sequences. They are built on `Seqs`, which holds `filter`, `map`, `every`, `some` and `find` with their contracts. The grouping `forEach` is a loop with invariants. The field list and the editor's other state are the fields of the class `AddFields.FieldEditor`.

A field's settings distinguish three cases: no `values` key, a `values` key holding `undefined`, and a list of values. The source's two validators treat these cases differently, and the model keeps them apart:
- `filterFieldsWithEmptyValues` counts a field with settings but no `values` key as empty;
- `fieldsWithError` does not flag such a field;
- a `values` key holding `undefined` is neither empty nor an error.

## Model

| member | source | states |
|---|---|---|
| Session.SessionIdOf | packages/auth/server/lib/session/session.ts:35 | a session id is 64 lower-case hex characters |
| Session.SameIdSameDigest | packages/auth/server/lib/session/session.ts:65 | two tokens share a session id only if their SHA-256 digests are equal |
| Session.CreateStep | packages/auth/server/lib/session/session.ts:30-62 | the create step fails exactly when the token's id is already stored; on success the returned row expires 30 days after now and is the row stored under its id; users are untouched and the log grows by one entry exactly on success |
| Session.ValidateStep | packages/auth/server/lib/session/session.ts:64-113 | an authenticated result has its id still stored and expires after now; validation never adds a key and never touches users or the audit log |
| Session.InvalidateStep | packages/auth/server/lib/session/session.ts:115-129 | the invalidate step succeeds exactly when the id is stored; afterwards that key is gone and every other key remains; users are untouched and the log grows by one entry exactly on success |
| Session.CreateStoresHashedSession | packages/auth/server/lib/session/session.ts:35-61 | the created row has id = sessionToken = hex digest of the token, createdAt = updatedAt = now, and expiresAt = now + 2,592,000,000 ms; it carries the request's ip and agent and is exactly the row stored; the store gains exactly that one key; the log gains one SIGN_IN entry for the user; an id already present fails with a unique-constraint error and writes nothing |
| Session.ValidateUnknownSession | packages/auth/server/lib/session/session.ts:64-90 | an unknown id, or a row whose user is missing, gives unauthenticated and writes nothing |
| Session.ValidateExpiredDeletes | packages/auth/server/lib/session/session.ts:94-97 | when now >= expiresAt the row is deleted (one key fewer, nothing else changes) and the result is unauthenticated; validating the same token again, at any time, is unauthenticated and writes nothing |
| Session.ValidateRenews | packages/auth/server/lib/session/session.ts:99-110 | with expiresAt - 15 days <= now < expiresAt, the result is the row with expiresAt = now + 30 days, which is strictly later than before; that row is stored and nothing else changes |
| Session.ValidateKeepsFreshSession | packages/auth/server/lib/session/session.ts:99-112 | with more than 15 days left, the stored row and its user are returned unchanged and nothing is written |
| Session.AuthenticatedResultIsStored | packages/auth/server/lib/session/session.ts:92-112 | an authenticated result's session has the token's id as id and sessionToken, expires after now, equals the row now stored, and belongs to the returned user |
| Session.ValidateOnlyExtends | packages/auth/server/lib/session/session.ts:94-110 | validation only removes rows or pushes an expiry later; every other field of a surviving row is unchanged, and users and the audit log are untouched |
| Session.InvalidateRemovesExactlyOne | packages/auth/server/lib/session/session.ts:115-129 | a stored id is removed, exactly that key, and one SIGN_OUT entry is appended with the deleted row's user; a missing id fails with record-not-found and writes no audit entry |
| Session.StepsPreserveValid | packages/auth/server/lib/session/session.ts:35-39 | create, validate and invalidate keep every row under its own id, which is also its sessionToken |
| Session.CreateThenValidate | packages/auth/server/lib/session/session.ts:30-112 | a session just created for an existing user authenticates its token at any time before its 30 days run out, for that user and that session |
| Session.InvalidateThenValidate | packages/auth/server/lib/session/session.ts:115-119 | once its id is invalidated, a token no longer authenticates |
| Session.LifecycleScenario | packages/auth/server/lib/session/session.ts:43-110 | created at t0: used at t0+29 days it is renewed to t0+59 days; unused until t0+31 days it is deleted; renewal starts at 15 days left: renewed at 20 days of age; at 10 days of age the stored row and its user are returned and nothing is written |
| Session.SessionStore.CreateSession | packages/auth/server/lib/session/session.ts:30-62 | the result and the new tables are those of the create step, and every row stays under its own id |
| Session.SessionStore.ValidateSessionToken | packages/auth/server/lib/session/session.ts:64-113 | the result and the new tables are those of the validate step, and every row stays under its own id |
| Session.SessionStore.InvalidateSession | packages/auth/server/lib/session/session.ts:115-129 | the result and the new tables are those of the invalidate step, and every row stays under its own id |
| Session.GetRandomValues | packages/auth/server/lib/session/session.ts:21-23 | the buffer is filled in place with the random source's bytes, position by position |
| Session.GenerateSessionToken | packages/auth/server/lib/session/session.ts:20-28 | the token has 32 characters from a-z and 2-7, and decodes to exactly the 20 random bytes |
| Encoding.EncodeBase32LowerCaseNoPadding | packages/auth/server/lib/session/session.ts:25 | the output has ceil(8n/5) characters, all from the lower-case base-32 alphabet |
| Encoding.Base32RoundTrip | packages/auth/server/lib/session/session.ts:25 | decoding the base-32 encoding of any byte string gives it back |
| Encoding.EncodeHexLowerCase | packages/auth/server/lib/session/session.ts:35 | the output has two lower-case hex digits per byte |
| Encoding.HexRoundTrip | packages/auth/server/lib/session/session.ts:35 | decoding the hex encoding of any byte string gives it back |
| Encoding.HexInjective | packages/auth/server/lib/session/session.ts:65 | distinct byte strings have distinct hex encodings |
| AddFields.FilterFieldsWithEmptyValues | packages/ui/primitives/document-flow/add-fields.tsx:203-212 | the two filters in a row keep exactly the fields of the given type that have no settings, no `values` key or an empty `values` list, in input order |
| AddFields.HasErrors | packages/ui/primitives/document-flow/add-fields.tsx:214-233 | true exactly when some checkbox, radio or dropdown field is empty by that filter |
| AddFields.FieldsWithError | packages/ui/primitives/document-flow/add-fields.tsx:235-265 | every flagged entry comes from an option field with no settings or from a field with an empty `values` list; every such field is flagged; the list is empty exactly when no field has an error (order and count: FieldsWithErrorSnoc) |
| AddFields.AsFlaggedField | packages/ui/primitives/document-flow/add-fields.tsx:247-262 | a flagged entry keeps the field's form id, type, page, position, size and settings; its id is the stored id or 0, its recipient 0, and it is marked inserted |
| AddFields.FieldsWithErrorSnoc | packages/ui/primitives/document-flow/add-fields.tsx:236-262 | no fields flag nothing, and appending a field appends its flagged copy exactly when it has an error: one entry per erroneous field, in placement order |
| AddFields.FirstFieldWithError | packages/ui/primitives/document-flow/add-fields.tsx:1144-1145 | the tooltip's first entry is the first erroneous field in placement order |
| AddFields.RoleBucket | packages/ui/primitives/document-flow/add-fields.tsx:521-535 | a role's list holds recipients of that role only, and every recipient of that role |
| AddFields.GroupRecipientsByRole | packages/ui/primitives/document-flow/add-fields.tsx:521-535 | every role has a list, and each list is exactly that role's recipients in input order |
| AddFields.RoleBucketsPartition | packages/ui/primitives/document-flow/add-fields.tsx:521-535 | the five role lists together hold every recipient exactly once (their lengths sum to the input's) |
| AddFields.InsertSorted | packages/ui/primitives/document-flow/add-fields.tsx:551-555 | inserting into a list sorted by (signing order or MAX_SAFE_INTEGER, id) keeps it sorted |
| AddFields.InsertPermutes | packages/ui/primitives/document-flow/add-fields.tsx:551-555 | insertion adds exactly the one recipient |
| AddFields.SortForDisplay | packages/ui/primitives/document-flow/add-fields.tsx:551-555 | the display order of a role's list has as many entries as the list |
| AddFields.SortForDisplayCorrect | packages/ui/primitives/document-flow/add-fields.tsx:551-555 | the display order is sorted by signing order ascending, 0 or missing last, then id ascending, and is a permutation of the role's list |
| AddFields.RecipientsByRoleToDisplay | packages/ui/primitives/document-flow/add-fields.tsx:537-558 | the groups shown are the signer group and then the approver group, each sorted; CC, viewers and assistants are dropped |
| AddFields.SortedBucketFacts | packages/ui/primitives/document-flow/add-fields.tsx:546-557 | a role's list sorted for display is sorted, a permutation of that role's recipients, and holds no other role |
| AddFields.DisplayGroupsOfRecipients | packages/ui/primitives/document-flow/add-fields.tsx:521-558 | grouping then display gives two groups, signers then approvers, each a sorted permutation of exactly that role's recipients |
| AddFields.DefaultSigner | packages/ui/primitives/document-flow/add-fields.tsx:509-519 | there is no default exactly when every recipient is CC or assistant; otherwise the default is a recipient that is neither |
| AddFields.DefaultSignerIsFirstUnsent | packages/ui/primitives/document-flow/add-fields.tsx:515-516 | the default is the first recipient that is neither CC nor assistant and has not been sent the document |
| AddFields.DefaultSignerFallsBackToFirst | packages/ui/primitives/document-flow/add-fields.tsx:515-517 | when all such recipients have been sent it, the default is the first recipient that is neither CC nor assistant |
| AddFields.SignerHasSignature | packages/ui/primitives/document-flow/add-fields.tsx:566-570 | true exactly when some signature or free-signature field has the signer's id |
| AddFields.EverySignerHasSignature | packages/ui/primitives/document-flow/add-fields.tsx:565-571 | true exactly when every SIGNER recipient has such a field |
| AddFields.HandleGoNextClick | packages/ui/primitives/document-flow/add-fields.tsx:564-586 | the missing-signature dialog opens exactly when some signer has no signature field; the form is submitted exactly when every signer has one and the uninserted-field validation passes |
| AddFields.CopyOfField | packages/ui/primitives/document-flow/add-fields.tsx:440-446 | a copy has the fresh form id, the selected signer's id (or the source's recipient), and x and y moved by 3; everything else equals the source |
| AddFields.AppendCopyKeepsFormIdsUnique | packages/ui/primitives/document-flow/add-fields.tsx:440-448 | appending a copy under an unused form id keeps form ids unique |
| AddFields.WithFieldMeta | packages/ui/primitives/document-flow/add-fields.tsx:159-176 | the list keeps its length; each field keeps all but its settings; the settings become the saved ones exactly on the fields whose form id is the current field's |
| AddFields.SavedSettingsTouchOneField | packages/ui/primitives/document-flow/add-fields.tsx:159-176 | with unique form ids at most one field changes and ids stay unique; with no current field, or an id no field has, nothing changes |
| AddFields.FieldEditor.SelectDefaultSigner | packages/ui/primitives/document-flow/add-fields.tsx:509-519 | the selected signer becomes the default signer of the recipients |
| AddFields.FieldEditor.SetLastActiveField | packages/ui/primitives/document-flow/add-fields.tsx:659-660 | focus sets the last active field and blur clears it |
| AddFields.FieldEditor.OpenAdvancedSettings | packages/ui/primitives/document-flow/add-fields.tsx:665-668 | the field becomes the current field |
| AddFields.FieldEditor.OnFieldCopy | packages/ui/primitives/document-flow/add-fields.tsx:422-452 | with no focused field nothing changes; a plain copy puts the focused field on the clipboard and appends nothing; a duplicate appends exactly one copy and leaves the other fields unchanged; unique form ids stay unique |
| AddFields.FieldEditor.OnFieldPaste | packages/ui/primitives/document-flow/add-fields.tsx:454-471 | with an empty clipboard nothing changes; otherwise exactly one copy of the clipboard field is appended; unique form ids stay unique |
| AddFields.FieldEditor.RemoveField | packages/ui/primitives/document-flow/add-fields.tsx:663 | exactly the field at the index is dropped, the others keep their order, and unique form ids stay unique |
| AddFields.FieldEditor.RemoveAllFields | packages/ui/primitives/document-flow/add-fields.tsx:1128-1131 | going back removes every field |
| AddFields.FieldEditor.HandleSavedFieldSettings | packages/ui/primitives/document-flow/add-fields.tsx:159-176 | the fields become the settings update of the old fields for the current field's form id; unique form ids stay unique |

## Left out

- SHA-256 and UTF-8 encoding: an injected function from token to 32-byte digest; the digest algorithm is outside this model.
- `crypto.getRandomValues`: an injected byte stream; cryptographic quality is not a property a model can state.
- Prisma, the database and `async`/`await`: a map-backed store. The calls are sequential; concurrent requests are not modelled.
- Store failures other than the two the code's own logic causes (a duplicate id on create, a missing row on delete), such as a lost connection or a failed audit write after the session write, are not modelled.
- The foreign key from a session to its user: the schema is not part of this model, so `createSession` for an unknown user succeeds here.
- The `@updatedAt` column: renewal does not touch `updatedAt`, as the returned session in the source does not either. The audit entry's database-default `createdAt` is left out too.
- `Date.now()`: each call takes one `now`. The source reads the clock several times within one call; the model assumes they agree.
- Session.CreateStoresHashedSession: an absent `ipAddress` or `userAgent` is `None` throughout; the source's `?? null` and `undefined` are the same absence here.
- JSX rendering, toasts, hotkeys, the `MutationObserver`, pointer and DOM coordinate math (add-fields.tsx:286-367), and resize and move through `getFieldPosition`: presentation and floating-point geometry, outside the decision logic.
- `nanoid(12)`: the fresh form id is a parameter of the copy and paste methods.
- `validateFieldsUninserted`, `canRecipientFieldsBeModified` and `canRecipientBeModified`: their bodies are not part of this model. The first is the boolean parameter `uninsertedFieldsValid` of `HandleGoNextClick`.
- `ZFieldMetaSchema.parse` in `handleSavedFieldSettings`: taken as the identity on already-valid settings.
- Page positions and sizes are `real`; float rounding of `pageX + 3` is not modelled.
- AddFields.SortForDisplayCorrect: proves sorted and a permutation. The stability of `sortBy` is not stated. It matters only for recipients with equal signing order and equal id.
- The per-field error highlight (add-fields.tsx:640-643) and the disabled next button (add-fields.tsx:1127): these are rendering uses of `HasErrors` and `FilterFieldsWithEmptyValues`, which are modelled.
- The form's default values (add-fields.tsx:137-148): a mapping of stored fields into form fields. `FieldEditor` starts from the mapped list.
- AddFields.FieldEditor.RemoveField: requires an index inside the list. The source only calls it with the index of a rendered field.
- Encoding.DecodeBase32LowerCaseNoPadding: the decoder ignores the trailing bits that do not fill a byte. It accepts some strings that no encoder output equals. It exists only to state the round trip.
