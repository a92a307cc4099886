# PT scheduling store and handlers, in Dafny

This project models the core of a personal-training scheduling service:
- the JSON-file store of `server/database.js`. It holds users, invite codes, PT sessions and session comments, each collection with its own id counter.
- the Express handlers of `server/server.js` that read and change that store:
  - registration with a trainer's invite code;
  - invite creation;
  - booking a session, once or weekly;
  - the trainer's and the member's confirmation;
  - editing and cancelling a session;
  - removing a member;
  - the comment endpoints;
  - the two admin deletions.
- the two pure helpers of the calendar component
  (`client/src/components/Calendar.tsx`). They pick one day's sessions and decide that day's colour.

The store is an immutable `Store` value. Every handler is a pure function from
the store and the request's fields to a `Reply`: the new store and either the
response body or the refusal it answers with (`Server.Failure`, mapped to the
HTTP code by `Server.Status`).

Representations:
- a date is a day ordinal, so "a week later" is `+ 7`;
- a start time is its number of minutes after midnight, which orders as the zero-padded `HH:mm` strings do;
- a timestamp is milliseconds since the epoch.

The clock reading, the hashed password and the generated invite code are
parameters of the handlers (`now`, `hashed`, `code`).

Modules:
- `Wrappers` and `Seqs`: option type, filtering, counting and searching on sequences, pairwise predicates.
- `Model`: the records, the store, and the store invariant `WellFormed`. Every id was handed out by its counter, no id occurs twice, and no two users share an e-mail address. Also the booking invariant `SlotUnique`: no trainer holds two sessions at the same date and start time.
- `Text`: JavaScript's `String.prototype.trim`.
- `Database`: one function per store operation of `database.js`.
- `Server`: one function per handler of `server.js`.
- `Repeat`: the proofs about the weekly-booking loop.
- `Invariants`: every request as one datatype `Request`, served by `Handle`. It proves that every request keeps `WellFormed` and that the booking invariant survives every request except a time-only edit. It also proves that a once-set confirmation stamp is never changed and that no deleted session id comes back. The proofs cover a single request and any sequence of requests (`Run`).
- `Calendar`: the two helpers of the calendar component.

Two behaviours are reproduced as written and proved:
- The edit handler checks the new slot only when the date changes. `Invariants.TimeOnlyEditCanDoubleBook` exhibits two bookings, and an edit of one to the other's start time that leaves the trainer double-booked. The booking invariant is therefore proved for edits that pass that check (`Invariants.EditChecked`).
- The admin user deletion removes comments by their `user_id` field, which comments made through the API never carry. `Server.AdminDeleteUser` states that it keeps every comment without that field, `Server.CreateCommentRequest` and `Server.UpdateCommentRequest` state that a posted comment has none and an edit keeps it so, and `Invariants.PostedCommentSurvivesAdminDelete` proves that a posted comment survives the deletion.

## Model

| member | source | states |
|---|---|---|
| Database.FindUserById | server/database.js:55-58 | the result is an account of the store with that id, and there is none exactly when no account has it |
| Database.FindUserByEmail | server/database.js:50-53 | the result is an account with that e-mail address, and there is none exactly when no account has it |
| Database.CreateUser | server/database.js:60-70 | the new account gets the next user id and the given fields and is appended; only the user counter moves |
| Database.FindMembersByTrainerId | server/database.js:72-76 | exactly the member accounts whose trainer is the given one |
| Database.DeleteUser | server/database.js:83-87 | exactly the accounts with another id remain; nothing else changes |
| Database.FindInviteByCode | server/database.js:92-95 | the result is an invite with that code, and there is none exactly when no invite has it |
| Database.CreateInvite | server/database.js:97-109 | the new invite gets the next id, is unused and is appended; only the invite counter moves |
| Database.MarkInviteUsed | server/database.js:111-118 | the first invite with that code is marked used and every other invite is unchanged; with no such invite nothing changes |
| Database.MarkInviteUsedIdempotent | server/database.js:111-118 | marking a code used twice is the same as marking it once |
| Database.FindSessionById | server/database.js:185-188 | the result is a session with that id, and there is none exactly when no session has it |
| Database.MemberName | server/database.js:204-219 | the name of an account with the member's id, or "Unknown" when there is none |
| Database.FindByTrainerDateAndTime | server/database.js:204-219 | a booking is found exactly when some session holds that trainer, date and start time; it is the first such session, with its member's name |
| Database.FindByTrainerDateAndTimeFindsBooked | server/database.js:204-219 | the lookup succeeds exactly when the slot is booked |
| Database.BookingElsewhereIsOther | server/database.js:204-219 | in a well-formed store, the booking the lookup finds at a date other than a session's own belongs to a different session |
| Database.CreateSession | server/database.js:221-234 | the new session gets the next id, the given slot, flags true only when given as true, and no stamp; only the session counter moves |
| Database.UpdateSession | server/database.js:236-252 | the first session with that id gets every field the patch gives; its owners and creation time are kept; an existing stamp is kept, and an unset one is set to now exactly when both flags hold afterwards; with no such session nothing changes |
| Database.DeleteSession | server/database.js:254-263 | reports whether a session with that id existed and then removes the first one; otherwise nothing changes |
| Database.DeleteSessionRemovesExactlyId | server/database.js:254-263 | in a well-formed store, deleting by id leaves exactly the sessions with another id |
| Database.DeleteSessionsByUserId | server/database.js:278-282 | exactly the sessions the user neither trains nor attends remain |
| Database.InsertListed | server/database.js:150-155 | inserting into a list in listing order keeps listing order and adds exactly that session |
| Database.SortListing | server/database.js:150-155 | the result is in listing order (later dates first, earlier start times first within a date) and is a permutation of the input |
| Database.FindSessionsByTrainerId | server/database.js:128-156 | the trainer's sessions, each as often as in the store, in listing order |
| Database.FindSessionsByMemberId | server/database.js:158-183 | the member's sessions, each as often as in the store, in listing order |
| Database.FindCommentsBySession | server/database.js:287-292 | exactly the comments on that session |
| Database.FindPublicCommentsBySession | server/database.js:294-299 | exactly the public comments on that session |
| Database.PublicCommentsAreFilteredFull | server/database.js:287-299 | the public listing is the full listing with the private comments removed, in the same order |
| Database.FindCommentById | server/database.js:301-304 | the result is a comment with that id, and there is none exactly when no comment has it |
| Database.CreateComment | server/database.js:306-316 | the new comment gets the next id, the given fields and no edit time, and is appended; only the comment counter moves |
| Database.UpdateComment | server/database.js:318-331 | the first comment with that id gets the new content, visibility and edit time; with no such comment nothing changes |
| Database.DeleteComment | server/database.js:333-342 | reports whether a comment with that id existed and then removes the first one; otherwise nothing changes |
| Database.DeleteCommentsBySession | server/database.js:344-354 | exactly the comments on other sessions remain, and the reported count is the number removed |
| Database.DeleteCommentsByUserId | server/database.js:369-373 | exactly the comments whose user id is not the user remain |
| Model.EmptyStoreWellFormed | server/database.js:11-22 | the initial database satisfies the store invariant and the booking invariant |
| Text.Trim | server/server.js:619-626 | the result is the input without a white-space prefix and suffix, neither end of a non-empty result is white space, and it is empty exactly when the input is all white space |
| Text.TrimIdempotent | server/server.js:619-626 | trimming a trimmed string changes nothing |
| Server.Status | server/server.js:373-412 | every refusal is answered with 400, 403, 404 or 500 |
| Server.CheckInvite | server/server.js:57-75 | a member's invite is refused as missing, unknown, used or expired, in that order and each exactly in its case; otherwise it is the stored, unused, unexpired invite with that code |
| Server.Register | server/server.js:39-105 | a refusal leaves the store unchanged; empty fields, a taken e-mail address and a bad invite are refused; registration succeeds exactly when the fields are given, the e-mail address is new and a member's invite checks out; the account gets the next id and the hashed password, and a member is attached to the invite's trainer and uses up the invite |
| Server.CreateInviteCode | server/server.js:141-170 | the new invite holds the trainer and the code, is unused, expires seven days after now, is created at now and is appended; only the invite list and its counter change |
| Server.CreatePtSession | server/server.js:271-313 | the booking is refused exactly when the slot (default start time 09:00) is taken, leaving the store unchanged and naming the booked member (or 'Unknown'); otherwise the session is appended with the next id, created at now, confirmed by the trainer only |
| Server.CreateRepeatSessions | server/server.js:316-370 | the request always succeeds; with no weeks to book it changes nothing |
| Repeat.CreateRepeatSessionsSpec | server/server.js:316-370 | the week dates that were taken at the start are reported as failed and the free ones are booked, in week order, one session per free week with consecutive ids, created at now and confirmed by the trainer only; every week is one or the other; the store grows by exactly the booked sessions and keeps both invariants |
| Repeat.RepeatFromStep | server/server.js:324-358 | one turn of the loop reports a taken week ahead of the later weeks, or books a free week ahead of them |
| Repeat.RepeatFromReportsTaken | server/server.js:324-358 | the loop reports exactly the week dates taken in the store it started from |
| Repeat.RepeatFromBooksFree | server/server.js:324-358 | the loop books exactly the week dates free in the store it started from |
| Repeat.RepeatFromKeepsSlotsUnique | server/server.js:324-358 | the loop never double-books the trainer |
| Repeat.RepeatSkipsBookedWeek | server/server.js:316-370 | with the second of four weeks booked, that week is reported as failed and the other three are booked |
| Server.ConfirmSession | server/server.js:373-454 | an unknown session is refused with 404, a requester who is not that party with 403, and then nothing changes; otherwise only that session changes: the party's flag is set, the other flag, the slot and the owners are kept, the creation time and an existing stamp are kept, and an unset stamp becomes now exactly when both flags hold |
| Server.UpdatePtSession | server/server.js:458-503 | refusals for an unknown session and another trainer; in a well-formed store the edit is refused as busy exactly when the date moves onto a slot another session holds; on success only that session changes, taking the new start time and (when given) the new date, keeping its flags, its member, its creation time and an existing stamp; an unset stamp becomes now exactly when both flags hold |
| Server.DeletePtSession | server/server.js:505-536 | refusals for an unknown session or another trainer leave the store unchanged; otherwise the session and exactly its comments are removed |
| Server.DeleteCommentsOfSessions | server/server.js:558-561 | exactly the comments on none of the listed sessions remain |
| Server.DeleteMember | server/server.js:539-580 | an unknown member is refused with 404 and another trainer's member with 403, with the store unchanged; otherwise the account, exactly the member's sessions and exactly those sessions' comments are removed |
| Server.DeleteMemberAsWritten | server/server.js:539-580 | the handler never changes the store; it fails with a server error exactly when the member exists and belongs to the trainer |
| Invariants.MemberDeleteAsWrittenKeepsMember | server/server.js:556-571 | for an owned member the handler as written answers 500 and keeps the member, while the intended cascade succeeds, removes the account and leaves no session of the member |
| Server.ReadComments | server/server.js:585-612 | a member sees exactly the public comments on the session; any other role sees every comment on it |
| Server.CreateCommentRequest | server/server.js:615-642 | empty or all-white-space content is refused and nothing changes; otherwise the trimmed, non-empty content is appended as a new comment with the next id, created at now, never edited and without a user_id |
| Server.UpdateCommentRequest | server/server.js:645-678 | an unknown comment (404) or another trainer's comment (403) is refused and nothing changes; otherwise only that comment changes: it is the stored comment with the trimmed content, the new visibility and the edit time, every other field (session, author, user_id, creation time) kept |
| Server.DeleteCommentRequest | server/server.js:681-702 | an unknown comment (404) or another trainer's comment (403) is refused and nothing changes; otherwise exactly that comment is removed |
| Server.AdminDeleteUser | server/server.js:764-792 | a requester who is not an admin is refused (403), and so is an admin deleting themselves (400); otherwise exactly the other accounts, the sessions not involving the user and the comments without the user's id remain |
| Server.AdminDeleteSession | server/server.js:795-817 | a requester who is not an admin is refused and nothing changes; otherwise the session and exactly its comments are removed |
| Invariants.RegisterKeepsWellFormed | server/server.js:39-105 | registration keeps the store invariant, in particular unique e-mail addresses |
| Invariants.CreateInviteCodeKeepsWellFormed | server/server.js:141-170 | invite creation keeps the store invariant |
| Invariants.CreatePtSessionKeepsWellFormed | server/server.js:271-313 | booking keeps the store invariant |
| Invariants.CreatePtSessionKeepsSlotsUnique | server/server.js:276-296 | booking never double-books the trainer |
| Invariants.ConfirmSessionKeepsWellFormed | server/server.js:373-454 | confirmation keeps the store invariant |
| Invariants.ConfirmSessionKeepsSlotsUnique | server/server.js:373-454 | confirmation never double-books the trainer |
| Invariants.ConfirmIdempotent | server/server.js:373-454 | confirming again as the same party gives the same reply and the same store, with the first stamp kept |
| Invariants.UpdatePtSessionKeepsWellFormed | server/server.js:458-503 | an edit keeps the store invariant |
| Invariants.UpdateMovingDateKeepsSlotsUnique | server/server.js:474-486 | an edit that moves the session to another date never double-books the trainer |
| Invariants.UpdateKeepingSlotKeepsSlotsUnique | server/server.js:474-486 | an edit that keeps the date and the start time never double-books the trainer |
| Invariants.TimeOnlyEditCanDoubleBook | server/server.js:474-486 | from a store without double bookings, an edit that changes only the start time onto another booking succeeds and leaves the trainer double-booked |
| Invariants.DeletePtSessionKeepsWellFormed | server/server.js:505-536 | cancelling keeps the store invariant |
| Invariants.DeletePtSessionKeepsSlotsUnique | server/server.js:505-536 | cancelling never double-books the trainer |
| Invariants.DeletePtSessionRemovesExactly | server/server.js:505-536 | in a well-formed store a cancellation leaves exactly the sessions with another id and the comments on other sessions |
| Invariants.DeleteMemberKeepsWellFormed | server/server.js:539-580 | removing a member keeps the store invariant |
| Invariants.DeleteMemberKeepsSlotsUnique | server/server.js:539-580 | removing a member never double-books a trainer |
| Invariants.RemoveUserIsFilter | server/server.js:565-569 | in a well-formed store, splicing out the first account with an id leaves exactly the accounts with another id |
| Invariants.CreateCommentRequestKeepsWellFormed | server/server.js:615-642 | posting a comment keeps the store invariant |
| Invariants.PostedCommentSurvivesAdminDelete | server/server.js:764-787 | a comment posted through the API is still there after any admin user deletion |
| Invariants.UpdateCommentRequestKeepsWellFormed | server/server.js:645-678 | editing a comment keeps the store invariant |
| Invariants.DeleteCommentRequestKeepsWellFormed | server/server.js:681-702 | deleting a comment keeps the store invariant |
| Invariants.AdminDeleteUserKeepsWellFormed | server/server.js:764-792 | the admin user deletion keeps the store invariant |
| Invariants.AdminDeleteUserKeepsSlotsUnique | server/server.js:764-792 | the admin user deletion never double-books a trainer |
| Invariants.AdminDeleteSessionKeepsWellFormed | server/server.js:795-817 | the admin session deletion keeps the store invariant |
| Invariants.AdminDeleteSessionKeepsSlotsUnique | server/server.js:795-817 | the admin session deletion never double-books a trainer |
| Invariants.AdminDeleteSessionRemovesExactly | server/server.js:795-817 | in a well-formed store the admin session deletion leaves exactly the sessions with another id and the comments on other sessions |
| Invariants.InviteSingleUse | server/server.js:57-79 | after a member registers with an invite, that invite is reported as used and a second registration with it is refused |
| Invariants.EvolvesTrans | server/database.js:236-252 | the relation "none of the four id counters goes back, a set stamp is kept, no deleted session id comes back" is transitive |
| Invariants.HandleKeepsInvariants | server/server.js:39-817 | every request keeps the store invariant, keeps every set confirmation stamp, never brings back a deleted session id, and keeps the booking invariant unless it is a time-only edit that fails the date check |
| Invariants.RunKeepsWellFormed | server/server.js:39-817 | any sequence of requests keeps the store invariant |
| Invariants.RunKeepsSlotsUnique | server/server.js:39-817 | any sequence of requests without an unchecked time-only edit keeps the booking invariant |
| Invariants.RunEvolves | server/server.js:39-817 | over any sequence of requests, none of the four id counters (users, invite codes, sessions, comments) goes back, a set confirmation stamp never changes and no deleted session id comes back |
| Invariants.FreshInstallKeepsInvariants | server/database.js:11-22 | starting from the initial database, any sequence of requests without an unchecked time-only edit ends in a store satisfying both invariants |
| Calendar.SessionsForDate | client/src/components/Calendar.tsx:37-40 | exactly the sessions on that date: as many as the list has on it, each one as often as it occurs in the list, no other |
| Calendar.SessionsForDateTwice | client/src/components/Calendar.tsx:37-40 | picking a day from a day's sessions changes nothing, and picking another day from them gives nothing |
| Calendar.SessionStatus | client/src/components/Calendar.tsx:43-55 | no colour exactly for an empty day; 'confirmed' exactly when every session is confirmed by both sides; 'pending' exactly when some session still waits for a side |
| Calendar.SessionStatusSplits | client/src/components/Calendar.tsx:43-55 | one session gives its own state, and the colour of two lists together is the join of their colours |
| Calendar.DayWithoutColour | client/src/components/Calendar.tsx:37-55 | a day has no colour exactly when no session falls on it |

## Left out

- The login endpoint, the HTTP endpoints that list members and sessions per trainer or member, the trainer lookup, the admin listings and the static-file route are not modelled. They only read, except login, which compares a bcrypt hash. The store lookups those listings call (`findByTrainerId`, `findByMemberId` and their ordering) are modelled.
- Database.SortListing: stability is not stated (sessions with the same date and start time keep their store order, as the sort of the JavaScript engine does); only the order of the keys and the permutation are.
- Password hashing (bcrypt), invite-code generation (nanoid) and the clock are inputs to the handlers, not computations.
- File I/O, the PostgreSQL and persistent variants of the store (`database-pg.js`, `database-persistent.js`), `server.prod.js`, the init scripts, Express routing, JSON parsing and the UI rendering of the calendar are not part of this model.
- Concurrency: every request is served against one store with nothing interleaved, and one `now` stands for all clock readings of a request.
- The shape of listing rows (the joined `memberName`, the camel-case renaming) is not modelled; listings return the stored sessions.
- Database.FindCommentsBySession, Database.FindPublicCommentsBySession, Server.ReadComments: the newest-first order of the per-session comment listings (database.js:291 and :298) is not modelled; they keep store order.
- Ids are integers. `parseInt` on path parameters and the strict comparison of ids that arrive as strings in request bodies are not modelled, so a request whose body id is a string is treated as if it matched.
- Roles are the three values `Admin`, `Trainer` and `Member`. Registration with any other role string, and the missing-role check that depends on it, are not modelled.
- Server.UpdateCommentRequest: takes the content as a string. The source throws, and answers 500, when the body has no content.
- Server.UpdatePtSession: takes the start time as given. The source writes an undefined start time when the body has none.
- Server.CreateCommentRequest: takes `isPublic` as a boolean; the source stores whatever value the body carries.
- Server.CreateRepeatSessions: takes the number of weeks as an integer. A non-numeric `weeks` in the body is not modelled. Its own contract states only totality; the full behaviour is stated by Repeat.CreateRepeatSessionsSpec.
- Server.CreateRepeatSessions: the weekly loop asks the slot lookup only whether it found a booking, so it uses `Database.SlotBooked`, linked to the lookup by Database.FindByTrainerDateAndTimeFindsBooked.
- Server.Status: its contract names only the set of codes; which refusal gets which code is in its body, read off the handlers.
- Dates are day ordinals. JavaScript `Date` parsing and the UTC/local-time behaviour of `yyyy-MM-dd` strings are not modelled.

## Findings

| source | as written | input that shows it | evidently intended | confidence | as-written member | corrected member |
|---|---|---|---|---|---|---|
| server/server.js:557 | the member-delete handler calls `loadDB` (and later `saveDB`), which `server.js` does not import (line 5 imports only the four store objects), so the call throws and the handler answers 500 without changing anything | any member who exists and belongs to the requesting trainer | remove the member, the member's sessions and those sessions' comments, as the handler's comments describe (lines 556-571). Importing the two functions would not be enough: the snapshot loaded at line 557 would be saved back after the comment deletions and restore those comments | not executed | Server.DeleteMemberAsWritten | Server.DeleteMember |
