# Hospital ticket backend: authentication and request rules in Dafny

This project models the core of the Java backend of a hospital help-desk
system (`java-backend/src/com/hospital/tickets/Main.java`). Users sign up and
log in, then open, list, update, re-status and delete tickets. A user's role
is either `usuario` (staff who report problems) or `tecnico` (technicians who
handle them). The core has three parts:

- **A lenient flat-JSON codec.** `parseJsonObject` scans characters with one
  in-string flag, splits on commas outside quotes, splits each field at its
  first colon and strips one pair of quotes. `toJson` / `valueToJson` write
  maps and lists and escape only the backslash and the double quote. The
  modules are `JsonDecode`, `JsonEncode` and `JsonRoundTrip`.
- **A JWT-like bearer token** (module `Token`). `createToken` and
  `authenticate` use the compact serialization of section 7.1 of RFC 7515,
  signed with HMAC-SHA256 as in section 3.2 of RFC 7518. The segments are
  base64url without padding (section 5 of RFC 4648, module `Base64Url`) of
  UTF-8 text (module `Utf8`). Password hashing, in module `Digests`, is
  SHA-256 rendered as lower-case hex.
- **The decisions of the six HTTP handlers** (modules `Tickets` and
  `Handlers`). These are signup, login, `/auth/me`, `/tickets`, `/ticket/{id}`
  and `/users`. Each is a function from a request to a reply and the storage
  writes it makes, given what the storage answered.

Java's string operations are modelled in `JavaText`: `trim`, `isBlank`,
`toLowerCase`, `equalsIgnoreCase`, `indexOf` and `split` (which drops trailing
empty strings), and `String.valueOf(long)`. The iteration order of Java maps
is modelled in `KeyOrders`.

The environment enters as parameters:

- the signing secret;
- the HMAC-SHA256 and SHA-256 primitives, as the function fields of a
  `Crypto` value with 32-octet outputs;
- the iteration orders of `Map.of` and `HashMap`;
- the clock readings and the generated UUIDs;
- the storage answers. A lookup answers `Found`, `Missing` or `Failed` (an
  exception). A write answers whether it went through.

The model follows what the code does. Where the code throws, the model says
so:

- `stripQuotes` on a lone `"` calls `substring(1, 0)` and throws. This makes
  `parseJsonObject` throw too, and `DecodeObject` is then `None`.
- Where such an exception escapes a handler outside its `try` block, no reply
  is sent (`Aborted`). This happens for the body of signup, login and
  `POST /tickets`, and for a `GET /auth/me` token that lacks `sub` or
  `email`.
- An empty secret makes `SecretKeySpec` throw. No token can then be made or
  accepted.
- A NULL user id makes the login reply's `Map.of` throw, which gives 500.

The imperative parts of the source are methods with loops, each proved equal
to the function that specifies it:

- the scanner and map-filling loops of `parseJsonObject`;
- the `first`-flag loops of `toJson`;
- the hex loop of `sha256`;
- the ticket-visibility filter;
- the in-place merge of the ticket update.

## Model

| member | source | states |
|---|---|---|
| JsonDecode.ParseJsonObject | java-backend/src/com/hospital/tickets/Main.java:92-127 | the scanning loop and the map-filling loop compute `DecodeObject` of the input, exceptions included |
| JsonDecode.ScanFields | java-backend/src/com/hospital/tickets/Main.java:100-115 | the character loop collects exactly the pieces `Fields` describes: commas outside quotes separate, a non-empty last piece is kept |
| JsonDecode.FillMap | java-backend/src/com/hospital/tickets/Main.java:116-125 | the loop over the pieces yields `BuildMap` of their entries, failing as soon as one piece's key or value is a lone quote |
| JsonDecode.DecodeObject | java-backend/src/com/hospital/tickets/Main.java:92-94 | a null input gives the empty map |
| JsonDecode.Inner | java-backend/src/com/hospital/tickets/Main.java:95-98 | the scanned text is the trimmed input, less its braces, so it is never longer than the input |
| JsonDecode.RunInString | java-backend/src/com/hospital/tickets/Main.java:104-114 | the in-string flag is on exactly when an odd number of quotes has been read |
| JsonDecode.RunJoin | java-backend/src/com/hospital/tickets/Main.java:100-115 | the collected pieces joined by commas give the scanned text back: the scanner loses no character but the separating commas |
| JsonDecode.CommaOutsideQuotes | java-backend/src/com/hospital/tickets/Main.java:106-110 | after an even number of quotes, a comma closes the current piece and starts an empty one |
| JsonDecode.CommaInsideQuotes | java-backend/src/com/hospital/tickets/Main.java:106-112 | after an odd number of quotes, a comma is kept inside the current piece |
| JsonDecode.RunAppend | java-backend/src/com/hospital/tickets/Main.java:104-114 | scanning a concatenation is scanning the parts in turn |
| JsonDecode.SplitFirstColon | java-backend/src/com/hospital/tickets/Main.java:117-118 | `split(":", 2)` has two parts exactly when the field holds a colon; the key part holds none, and key, colon and value give the field back |
| JsonDecode.SplitFirstColonValue | java-backend/src/com/hospital/tickets/Main.java:117-121 | a value may contain colons: a colon-free key is split off whole |
| JsonDecode.FieldEntry | java-backend/src/com/hospital/tickets/Main.java:116-125 | a field yields no entry exactly when it holds no colon |
| JsonDecode.BuildMapThrows | java-backend/src/com/hospital/tickets/Main.java:116-125 | filling the map fails exactly when some field's key or value is a lone quote |
| JsonDecode.BuildMapKeys | java-backend/src/com/hospital/tickets/Main.java:116-125 | the keys of the result are exactly the keys of the fields that have a colon |
| JsonDecode.BuildMapLastWins | java-backend/src/com/hospital/tickets/Main.java:123 | a later duplicate key overwrites an earlier one |
| JsonDecode.BuildMapPrefixThrows | java-backend/src/com/hospital/tickets/Main.java:116-125 | once a field throws, the whole parse throws |
| JsonDecode.BuildMapNoColon | java-backend/src/com/hospital/tickets/Main.java:118 | fields without a colon are dropped |
| JsonDecode.DecodeWithoutColon | java-backend/src/com/hospital/tickets/Main.java:92-127 | a text without any colon parses to the empty map |
| JsonDecode.StripQuotes | java-backend/src/com/hospital/tickets/Main.java:129-135 | fails exactly on a lone quote after trimming; otherwise the result is the trimmed text, or that text less one leading and one trailing quote |
| JsonDecode.StripQuotesQuoted | java-backend/src/com/hospital/tickets/Main.java:131-132 | a quoted text loses exactly its outer quotes |
| JsonDecode.StripQuotesTrimmedQuoted | java-backend/src/com/hospital/tickets/Main.java:129-135 | text that trims to a quoted x, whatever blanks surround it, gives back exactly x |
| JsonDecode.StripQuotesUnquoted | java-backend/src/com/hospital/tickets/Main.java:130-134 | a trimmed text without quotes at both ends is returned trimmed |
| JsonEncode.ToJson | java-backend/src/com/hospital/tickets/Main.java:137-163 | the writer's loops produce `ValueToJson` of the value |
| JsonEncode.ObjectToJson | java-backend/src/com/hospital/tickets/Main.java:138-148 | the map loop writes `{`, the members joined by commas in iteration order, then `}` |
| JsonEncode.ArrayToJson | java-backend/src/com/hospital/tickets/Main.java:149-160 | the list loop writes `[`, the items joined by commas, then `]` |
| JsonEncode.EscapeIsEscapeEach | java-backend/src/com/hospital/tickets/Main.java:168 | the two `replace` calls escape each backslash and each quote once, character by character |
| JsonEncode.UnescapeEscape | java-backend/src/com/hospital/tickets/Main.java:168 | the string escape is invertible: it loses nothing |
| JsonEncode.EscapeSafe | java-backend/src/com/hospital/tickets/Main.java:168 | a string without quote or backslash is written as it is |
| JsonEncode.ReplaceCharAppend | java-backend/src/com/hospital/tickets/Main.java:168 | `replace` of one character works piecewise over a concatenation |
| JsonRoundTrip.DecodeEncodeFlat | java-backend/src/com/hospital/tickets/Main.java:92-176 | for string members with no quote or backslash anywhere and no colon in a key, reading the written object gives the map the members denote |
| JsonRoundTrip.FieldsOfMembers | java-backend/src/com/hospital/tickets/Main.java:100-115 | the scanner cuts a written flat object exactly at the member boundaries |
| JsonRoundTrip.BuildMapMembers | java-backend/src/com/hospital/tickets/Main.java:116-125 | the member pieces fill the map with their keys and values, a later key winning |
| JsonRoundTrip.InnerOfObject | java-backend/src/com/hospital/tickets/Main.java:95-98 | the reader looks exactly between the braces the writer put around a map |
| JsonRoundTrip.MapOfDistinct | java-backend/src/com/hospital/tickets/Main.java:142-146 | with distinct keys, as a Java map has, each member is found under its key and nothing else is present |
| JsonRoundTrip.KeyNotEscaped | java-backend/src/com/hospital/tickets/Main.java:144 | a key is written verbatim between quotes; for a key holding a quote or a backslash this differs from how the same text is written as a value |
| JsonEncode.EscapeGrows | java-backend/src/com/hospital/tickets/Main.java:168 | escaping never shortens a text, and lengthens every text holding a quote or a backslash |
| JsonRoundTrip.BackslashWrittenDoubled | java-backend/src/com/hospital/tickets/Main.java:168 | a backslash anywhere in a string value is written doubled, the text on either side escaped as usual |
| JsonRoundTrip.BackslashReadDoubled | java-backend/src/com/hospital/tickets/Main.java:92-176 | the reader does not undo the writer's escape: a quote-free string value is read back in its escaped form, so a value holding a backslash does not survive the round trip |
| JsonEncode.EscapeQuoteFree | java-backend/src/com/hospital/tickets/Main.java:168 | escaping quote-free text adds no quote, and each backslash makes the text longer |
| JsonRoundTrip.DecodeOneMember | java-backend/src/com/hospital/tickets/Main.java:92-135 | one quoted member without inner quotes is read back as it stands |
| Digests.HexDigest | java-backend/src/com/hospital/tickets/Main.java:509-512 | the `%02x` loop renders the digest as `Hex` |
| Digests.Hex | java-backend/src/com/hospital/tickets/Main.java:511 | two lower-case hex digits per octet |
| Digests.UnHexHex | java-backend/src/com/hospital/tickets/Main.java:511 | the hex text gives the octets back |
| Digests.HexInjective | java-backend/src/com/hospital/tickets/Main.java:511 | two digests have the same text exactly when they are equal |
| Digests.Sha256Hex | java-backend/src/com/hospital/tickets/Main.java:506-516 | a password hash is 64 characters long |
| Digests.PasswordMatch | java-backend/src/com/hospital/tickets/Main.java:231 | the login comparison of hex texts is exactly a comparison of digests |
| Digests.HmacSha256 | java-backend/src/com/hospital/tickets/Main.java:499-504 | fails exactly for an empty secret; otherwise a 43-character base64url text without a dot |
| Base64Url.DecodeEncode | java-backend/src/com/hospital/tickets/Main.java:475-494 | the URL decoder gives back the octets the padless encoder was given |
| Base64Url.Encode | java-backend/src/com/hospital/tickets/Main.java:493-494 | the output uses only the URL-safe alphabet and never has a length of 1 modulo 4 |
| Base64Url.EncodeHasNoDot | java-backend/src/com/hospital/tickets/Main.java:493-495 | an encoded segment never contains the separator `.` |
| Base64Url.EncodeLength | java-backend/src/com/hospital/tickets/Main.java:503 | n octets encode to ceil(4n/3) characters |
| Base64Url.EncodeEmpty | java-backend/src/com/hospital/tickets/Main.java:493-494 | only the empty input encodes to the empty text |
| Utf8.DecodeEncode | java-backend/src/com/hospital/tickets/Main.java:475-494 | decoding the UTF-8 octets of a text gives the text back |
| Utf8.Encode | java-backend/src/com/hospital/tickets/Main.java:493-494 | every character takes at least one octet |
| Token.CreateToken | java-backend/src/com/hospital/tickets/Main.java:483-497 | fails exactly when the secret is empty |
| Token.Segment | java-backend/src/com/hospital/tickets/Main.java:493-494 | a segment contains no dot, and is empty only for empty JSON |
| Token.TokenSegments | java-backend/src/com/hospital/tickets/Main.java:483-497 | a created token splits into exactly three segments, the third the MAC of the first two |
| Token.TokenRoundTrip | java-backend/src/com/hospital/tickets/Main.java:463-497 | under the same secret, `authenticate("Bearer " + createToken(...))` returns exactly the claims sub, email, name, role, sector and iat, if no claim holds a quote or backslash |
| Token.Authenticate | java-backend/src/com/hospital/tickets/Main.java:463-481 | accepted only with a non-empty secret, a case-sensitive `Bearer ` prefix, three segments and a matching third segment; the result is the payload segment's claims |
| Token.BearerToken | java-backend/src/com/hospital/tickets/Main.java:465-466 | the token is what follows the `Bearer ` prefix |
| Token.BearerTokenOf | java-backend/src/com/hospital/tickets/Main.java:465-466 | the prefix is removed exactly |
| Token.AnyHeaderAccepted | java-backend/src/com/hospital/tickets/Main.java:467-477 | the header segment is never inspected (no `alg` check) and nothing expires: any header with a correctly signed payload is accepted |
| Token.TrailingDotIgnored | java-backend/src/com/hospital/tickets/Main.java:468-469 | a trailing dot changes nothing, because `split` drops the empty last piece |
| Token.SegmentRoundTrip | java-backend/src/com/hospital/tickets/Main.java:475-494 | a segment decodes to the claims of the JSON it was made from |
| Token.StringObjectRoundTrip | java-backend/src/com/hospital/tickets/Main.java:484-494 | a map of plain strings written in any iteration order reads back as the same map |
| Token.StringObject | java-backend/src/com/hospital/tickets/Main.java:484-490 | each written member is a key of the map with its value as a string |
| JavaText.Trim | java-backend/src/com/hospital/tickets/Main.java:130 | the result is a slice of the input with no character ≤ space at either end, and the input itself when it has none there |
| JavaText.JavaSplit | java-backend/src/com/hospital/tickets/Main.java:468 | `split` on one character, dropping trailing empty pieces |
| JavaText.SplitThree | java-backend/src/com/hospital/tickets/Main.java:468-469 | three dot-free segments, the last non-empty, joined by dots split back into those three |
| JavaText.IntToStringRoundTrip | java-backend/src/com/hospital/tickets/Main.java:491 | the issue time's decimal text determines the number |
| Tickets.VisibleTickets | java-backend/src/com/hospital/tickets/Main.java:328-340 | the listing loop computes `Visible`: all tickets for a tecnico, otherwise the caller's own |
| Tickets.Owned | java-backend/src/com/hospital/tickets/Main.java:333-339 | a ticket is listed exactly when it is in the list and its `user_id` text equals the token's sub |
| Tickets.OwnedAppend | java-backend/src/com/hospital/tickets/Main.java:335-339 | the filter keeps the list's order: it works piecewise over a concatenation |
| Tickets.OwnedAll | java-backend/src/com/hospital/tickets/Main.java:335-339 | a list of the caller's own tickets is returned unchanged |
| Tickets.NullOwnerMatchesNullText | java-backend/src/com/hospital/tickets/Main.java:336 | a NULL owner reads `"null"` and matches a sub of that text; a missing sub matches nothing |
| Tickets.NewTicket | java-backend/src/com/hospital/tickets/Main.java:346-364 | the new ticket has exactly the thirteen columns, its `user_id` is the token's sub whatever the body says, body fields are copied, and a blank or missing responsible name leaves it unassigned |
| Tickets.MergeTicket | java-backend/src/com/hospital/tickets/Main.java:405-414 | the in-place loop over the body entries, then the timestamp, computes `PutTicket` |
| Tickets.PutTicketEffect | java-backend/src/com/hospital/tickets/Main.java:405-414 | the columns of the updated ticket are the old ones plus those the body writes plus `updated_at`. Columns the body does not write keep their values. Each other body key overwrites its column. `updated_at` is the request time |
| Tickets.MergeUntouched | java-backend/src/com/hospital/tickets/Main.java:405-413 | a column no body entry writes is unchanged |
| Tickets.MergeLastWriter | java-backend/src/com/hospital/tickets/Main.java:405-413 | a written column holds the value of the last entry written to it |
| Tickets.MergeKeys | java-backend/src/com/hospital/tickets/Main.java:405-413 | the merge adds exactly the columns the body entries write to |
| Tickets.PutTicketAssignee | java-backend/src/com/hospital/tickets/Main.java:408-409 | `responsible_name` is stored as `assigned_to` |
| Tickets.PutTicketBothAssignees | java-backend/src/com/hospital/tickets/Main.java:405-413 | with both `responsible_name` and `assigned_to` in the body, the assignee depends on the map's iteration order |
| Handlers.ObjectOf | java-backend/src/com/hospital/tickets/Main.java:142-146 | each written member is a key of the map with its value, and every key is written |
| Handlers.RowsJson | java-backend/src/com/hospital/tickets/Main.java:341 | a list of rows is written as an array of the same length whose item i is the object of row i |
| Handlers.RowJson | java-backend/src/com/hospital/tickets/Main.java:341 | a row is written as an object with one member per column, each column once, NULL as null and text as a string |
| Handlers.SignupError | java-backend/src/com/hospital/tickets/Main.java:192-194 | a signup form is accepted exactly when email, password and name are non-empty and the role is `usuario` or `tecnico`. The checks run in that order |
| Handlers.Signup | java-backend/src/com/hospital/tickets/Main.java:183-215 | preflight and 405 first. A body that throws aborts. A broken form gets 400 with the first rule it breaks. An existing email gets 409 and a failed lookup or insert 500. 201 exactly for a valid form, an unused email and a stored user: the reply is the public user, and the only write is that user with the password hashed |
| Handlers.NewUser | java-backend/src/com/hospital/tickets/Main.java:200-210 | the stored user is the replied user plus the password's SHA-256 hex text and the creation time |
| Handlers.PublicUser | java-backend/src/com/hospital/tickets/Main.java:211 | the signup reply holds exactly id, email, name, role and sector |
| Handlers.SignupReplyPublic | java-backend/src/com/hospital/tickets/Main.java:211 | the 201 reply reads back as the public user, with no password hash, in any key order |
| Handlers.Login | java-backend/src/com/hospital/tickets/Main.java:217-260 | login writes nothing. A body that throws aborts. A missing email or password gets 400 before any lookup, a failed lookup 500, an unknown email the 401 text. 200 only for a found user whose stored hash matches, whose role matches any requested role, and who has an id and a token |
| Handlers.LoginRoleMismatch | java-backend/src/com/hospital/tickets/Main.java:231-245 | a wrong password is refused before the role is compared. A requested role other than the stored one is refused with the stored role's message |
| Handlers.LoginSucceeds | java-backend/src/com/hospital/tickets/Main.java:246-259 | an accepted password and role give 200 with the new token and the user object (the row's id, the request's email); without an id or a token the reply is 500 |
| Handlers.LoginTokenAccepted | java-backend/src/com/hospital/tickets/Main.java:463-497 | the token login issues is accepted, with the row's id as sub, the request's email and the stored role |
| Handlers.ProfileUpdate | java-backend/src/com/hospital/tickets/Main.java:280-289 | a tecnico's sector is never written; anyone else's is the body's; the name is the body's |
| Handlers.Me | java-backend/src/com/hospital/tickets/Main.java:262-315 | 401 without a valid token. GET echoes the claims with 200, and aborts exactly when sub or email is missing. A PUT whose body parses and whose write goes through keeps that profile write whatever the read-back answers: 404 for a missing user, 500 for a failed lookup. Other methods get 405 |
| Handlers.EchoUser | java-backend/src/com/hospital/tickets/Main.java:270-276 | the echoed user has exactly five fields: id is the sub claim, email the email claim, role the role claim or usuario |
| Handlers.MeProfileReissued | java-backend/src/com/hospital/tickets/Main.java:288-306 | a saved profile whose user is read back gets 200 with a new token for the sub claim and the row's email, and the profile write |
| Handlers.TicketsRoute | java-backend/src/com/hospital/tickets/Main.java:318-374 | 401 without a valid token. GET replies with the visible tickets, or 500 if listing fails. A POST whose body parses gets 201 with the new ticket, owned by the token's sub, and that insert as its only write; 500 if the insert fails. An unparsable POST body aborts. Other methods get 405 |
| Handlers.CreatedTicketOwner | java-backend/src/com/hospital/tickets/Main.java:362 | a stored new ticket's `user_id` is the token's sub |
| Handlers.StatusChange | java-backend/src/com/hospital/tickets/Main.java:428-429 | the status change sets `status` and `updated_at` and keeps every other column |
| Handlers.TicketRoute | java-backend/src/com/hospital/tickets/Main.java:376-440 | it always replies, and 401 comes first. A short path gives 404, and so does a missing ticket, whatever the role or method. 403 only for non-tecnicos. A delete or status write only by a tecnico, a status write only with a non-blank status, a ticket write only by PUT, and only as `PutTicket` |
| Handlers.DeleteNeedsTecnico | java-backend/src/com/hospital/tickets/Main.java:392-400 | DELETE of an existing ticket is 403 exactly for a caller who is not a tecnico; a tecnico's delete that goes through gets 204 and deletes the ticket named in the path |
| Handlers.StatusNeedsTecnico | java-backend/src/com/hospital/tickets/Main.java:420-432 | a non-blank status change is 403 exactly for a caller who is not a tecnico; a tecnico's change that goes through gets 200 with the changed row and writes the status and the request time to the ticket named in the path |
| Handlers.BlankStatusBeforeRole | java-backend/src/com/hospital/tickets/Main.java:420-427 | a missing or blank status is 400 for every role: the body is checked before the caller |
| Handlers.PutOpenToAnyCaller | java-backend/src/com/hospital/tickets/Main.java:403-417 | PUT asks for no role and no ownership: any authenticated caller's body is merged and stored |
| Handlers.UsersRoute | java-backend/src/com/hospital/tickets/Main.java:442-459 | it never writes. Any authenticated non-tecnico gets 403 whatever the method. A tecnico gets 405 for any method but GET, 500 if listing fails, and otherwise 200 with the listed users |

## Left out

- HTTP transport. Server setup, the CORS headers, `respond`/`respondText`
  and `readBody` are I/O. A reply is modelled as (status, content type,
  text), and a request as (method, decoded path, Authorization header,
  body text).
- `Database.java` is not part of this model. Every storage call is a
  parameter, so the model says nothing about what is stored between
  requests. This includes the `COALESCE` of the profile update. A failing
  write is assumed to leave nothing written.
- `UUID.randomUUID()`, `Instant.now()` and the environment variables are
  parameters.
- HMAC-SHA256 and SHA-256 are parameters fixed only in their 32-octet
  output. `sha256`'s fallback to the plain text when SHA-256 is unavailable
  cannot happen on a Java platform and is not modelled.
- KeyOrders.ValidOrder: the iteration order of a `HashMap` or a `Map.of` map
  is a function of its key set. The real order also depends on insertion
  history (HashMap) and on a per-run salt (Map.of). No contract depends on a
  particular order.
- Utf8.Decode: it fails on malformed octets, while Java substitutes U+FFFD.
  So `Token.Authenticate` rejects a correctly signed payload that is not
  well-formed UTF-8, where Java would parse the substituted text.
- JavaText.ToLower: it lowers only the ASCII letters. Java's `toLowerCase`
  is locale-dependent and covers all of Unicode.
- Strings are sequences of Unicode scalar values, not UTF-16 code units.
  Surrogate pairs and unpaired surrogates are not modelled.
- JsonEncode.ValueToJson: its number branch holds integral numbers only
  (`Integer`, `Long`), written in decimal. Non-integral `Number` values
  (`Double`, `Float`, `BigDecimal`), whose `String.valueOf` forms include
  `1.5`, `1.0E10` and `NaN`, are not modelled. The `Boolean` and
  other-object branches are modelled. No handler writes a number, a boolean
  or another object, because every stored column is text or NULL.
- Concurrency between requests is not modelled.
