# Badger: Yurplan badge classification, modelled in Dafny

Badger prints conference badges. Its Yurplan client logs in to the Yurplan event
service, fetches the event's tickets, and turns them into badge records
`{firstname, lastname, token, type}` in `get_badge_info`. This project models that
pass and the client's authorisation guard.

The pass (module `Badges`) handles each fetched ticket in order:

1. Four independent checks compare the ticket-type id with the configured
   conference, speaker, sponsor and staff ids. Each match overwrites the ticket's
   badge type, so when configured ids coincide the last check wins.
2. If the token is a key of the exception map, the badge type becomes the stored
   value, whatever the ticket-type id is. The key is tested before the lookup, so
   the lookup's `ATTENDEE` default is never used.
3. A ticket is kept only if its badge type is present and non-empty. So a ticket
   is dropped when no id matches and it has no exception, or when its exception
   value is the empty string.
4. A kept ticket whose token is in the correction map gets the stored first and
   last name.
5. Each kept ticket becomes a four-field record. Records come out in fetch order.

Module `BadgeProperties` proves the list-level facts. The output is the ordered
selection of the kept tickets, so by token it is a subsequence of the input. Every
kept ticket has its record. When tokens are distinct, a dropped ticket's token
appears in no record. Exceptions and corrections are honoured in every record.

Module `Client` models the session token as `Option<string>` and abstracts each
request to its outcome. `auth` stores a token only on an ok response. `tickets`
and `ticket` refuse with "not authorized" when the token is absent or empty.
Once a token is stored, it stays stored across further `auth` calls. It can
still be replaced by an empty one if the service returns an empty token.

The lookup at badger/yurplan/api.py:96-98 passes a default (the earlier `_type`,
else `ATTENDEE`), which suggests a fallback was meant. The key test at line 95
runs first, so that default is never used, and an empty stored value drops the
ticket. The model follows the code.

## Model

| member | source | states |
|---|---|---|
| `Badges.Classify` | badger/yurplan/api.py:87-94 | no badge type exactly when the ticket-type id matches none of the four ids; otherwise one of ATTENDEE, SPEAKER, SPONSOR, STAFF |
| `Badges.ApplyException` | badger/yurplan/api.py:95-98 | a token in the exception map gets exactly the stored value (the `get` default is dead); any other token keeps its previous type |
| `Badges.ProcessTicket` | badger/yurplan/api.py:87-104 | a ticket is kept iff it has a non-empty exception value, or has no exception and a matching id; a kept ticket keeps its token and type id; its type is non-empty, equal to the exception value or else the classification; its names are the correction pair when there is one and the fetched names otherwise |
| `Badges.SelectTickets` | badger/yurplan/api.py:85-104 | the kept list is no longer than the input, and every kept ticket has a non-empty type |
| `Badges.BadgeInfo` | badger/yurplan/api.py:84-110 | there are at most as many records as tickets, and every record's type is non-empty |
| `BadgeProperties.ClassifyIsLastMatch` | badger/yurplan/api.py:87-94 | classification equals the last category whose id matches, in check order, or none |
| `BadgeProperties.ClassifySingleMatch` | badger/yurplan/api.py:87-94 | when exactly one configured id matches, the ticket gets that id's category (conf→ATTENDEE, speaker→SPEAKER, sponsor→SPONSOR, staff→STAFF) |
| `BadgeProperties.ClassifyPriority` | badger/yurplan/api.py:87-94 | with coinciding ids, STAFF beats SPONSOR beats SPEAKER beats ATTENDEE |
| `BadgeProperties.ExceptionOverridesType` | badger/yurplan/api.py:95-99 | with an exception, the final type is the stored value, and the ticket is kept iff that value is non-empty |
| `BadgeProperties.UnmatchedTicketDropped` | badger/yurplan/api.py:87-99 | a ticket with no matching id and no exception is dropped |
| `BadgeProperties.KeptIndices` | badger/yurplan/api.py:86-104 | ascending positions below the input length, containing a position iff the ticket there is kept |
| `BadgeProperties.SelectTicketsFollowsKeptIndices` | badger/yurplan/api.py:85-104 | the k-th kept ticket is the processed ticket at the k-th kept position |
| `BadgeProperties.BadgeInfoIsOrderedSelection` | badger/yurplan/api.py:85-110 | record k consists of exactly the four fields of the processed ticket at the k-th kept position |
| `BadgeProperties.BadgeInfoTokensAreSubsequence` | badger/yurplan/api.py:86-110 | the record tokens are a subsequence of the ticket tokens, so the input order is preserved |
| `BadgeProperties.KeptTicketHasRecord` | badger/yurplan/api.py:99-110 | every kept ticket's record appears in the output |
| `BadgeProperties.DroppedTicketHasNoRecord` | badger/yurplan/api.py:99-104 | with distinct tokens, no record carries a dropped ticket's token |
| `BadgeProperties.RecordsHonourOverrides` | badger/yurplan/api.py:95-110 | a record whose token has an exception carries exactly the stored type; a record whose token has a correction carries exactly the stored names |
| `BadgeProperties.AttendeeScenario` | badger/yurplan/api.py:86-110 | one ticket whose id is the conference id yields one ATTENDEE record with its fetched names |
| `BadgeProperties.EmptyExceptionScenario` | badger/yurplan/api.py:95-104 | an exception with an empty value drops the ticket |
| `Client.Auth` | badger/yurplan/api.py:45-52 | an ok response stores its token; a non-ok response leaves the client unchanged |
| `Client.New` | badger/yurplan/api.py:41-43 | a new client holds a token iff its one authentication was ok, and then holds the returned token |
| `Client.Tickets` | badger/yurplan/api.py:54-61 | refuses with NotAuthorized iff the token is absent or empty; otherwise the list on an ok response and None on a non-ok one |
| `Client.Ticket` | badger/yurplan/api.py:63-72 | the same guard and ok/None handling for one ticket's detail view |
| `Client.GetBadgeInfo` | badger/yurplan/api.py:84-110 | NotAuthorized without a usable token; NoTicketList when the fetch was not ok; otherwise the classification pass over the fetched list |
| `Client.TokenPresenceIsMonotone` | badger/yurplan/api.py:41-52 | once stored, a token stays stored across further `auth` calls; a client has no token iff it started without one and every call was rejected |
| `Client.EmptyTokenRevokesAuthorization` | badger/yurplan/api.py:51-56 | a later ok `auth` that returns an empty token leaves a token stored but no longer authorised, so monotonicity holds for presence only |
| `BadgeProperties.DefaultStaffScenario` | badger/yurplan/api.py:74-94 | with the default type ids, a ticket of type id 12309 and no exception yields one STAFF record |
| `Client.RejectedAuthRefusesRequests` | badger/yurplan/api.py:41-65 | after a rejected authentication the token is None, and `tickets`, `ticket` and `get_badge_info` all refuse |

## Left out

- HTTP: the requests, URL building, query parameters, JSON decoding and the endpoint constant. Each request is reduced to its outcome (`AuthResponse`, `Response`), so the event id and ticket id only shape URLs and do not appear.
- Configuration: the option registration and the default credentials, which are only sent to the service.
- The fallback default `exceptions=None`: iterating would crash at `exceptions.keys()`. The model takes the exception map as a required argument.
- A non-ok ticket fetch inside `get_badge_info`: Python would fail iterating `None`. `Client.GetBadgeInfo` reports this as the explicit error `NoTicketList`.
- In-place mutation of the ticket dictionaries: the `_type` and name writes are modelled as building new values. Raw tickets are assumed to carry no `_type` of their own.
- Missing ticket fields: every fetched ticket is assumed to carry `token` and `type.id`, and every kept ticket to carry `firstname` and `lastname`. Python raises KeyError (or TypeError for a missing `type`) otherwise; `Ticket` makes these fields mandatory.
- Fields other than token, type id and names: they pass through the dictionaries untouched and never reach a record.
- Value types: ids, tokens, names and exception values are strings. Python would compare a JSON integer id unequal to a configured string id, and would apply truthiness to non-string exception values. Neither is modelled.
- badger/cmd/__init__.py `main`: command-line parsing, template lookup, barcode and SVG badge rendering and file output. All of it is I/O or calls into modules that are not part of this model.
