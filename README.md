# License Status Document server helpers, in Dafny

This project models the helpers behind the License Status Document (LSD)
server of a Readium LCP deployment, as written in
`controller/lsdserver/util.go`:

- `makeLinks` computes the hypermedia links of a status document (license,
  register, return, renew) and stores them on the license status;
- `makeEvent` builds a transaction event stamped with the current time cut
  to whole seconds in UTC;
- `getEvents` reads a status's events from the store and treats "record not
  found" as success;
- `notifyLCPServer` sends the new rights end of a license to the license
  server as a PATCH and reports the outcome;
- `fillLicenseStatus` fills the links and the events of a status.

Files:

- `model.dfy` (module `Model`): the records the helpers work on. These are a
  Go `time.Time` (an instant plus its location), a nullable time, the
  status enumeration, transaction events, links, the configuration sections,
  and the `LicenseStatus` class. The helpers update its `links` and `events`
  fields in place.
- `text.dfy` (module `Text`): Go's `strings.Replace` with a negative count,
  used to substitute `{license_id}` in a configured license-link template,
  and the cut of a string at a pattern (Go's `strings.Split`) that
  characterises it.
- `lsdserver.dfy` (module `LsdServer`): the five helpers, the specification
  of the link set, and the lemmas about it.

The link set is specified apart from the method that builds it. `Links`
filters the four candidate links, in the order license, register, return,
renew, by the predicate `Offered`. `MakeLinks` appends the links one `if` at
a time, as the Go code does, and its postcondition ties the stored links to
`Links`. The lemmas then state what the link set promises: presence, order,
and exact hrefs. `MakeLinks` may change only `ls.links`, and `Links` depends
only on `licenseRef` and `currentEndLicense`. So a second call stores the
same links again.

External collaborators are parameters:

- the clock in `makeEvent` is the `now` argument;
- the store query in `getEvents` is a function `eventsOf` from the status id
  to the events read and the store error;
- in `notifyLCPServer`, `requestBuilds` says whether Go's HTTP library
  accepts the target URL, and `roundTrip` gives how the exchange with the
  license server ended: a transport failure (possibly the 10-second deadline
  passing), a failed body read, or an answer with a status code;
- the request that goes out is returned as `sent`, so its URL, payload and
  credentials can be stated.

## Model

| member | source | states |
|---|---|---|
| `Model.Time.Truncate` | controller/lsdserver/util.go:130 | For a positive duration, the instant is rounded down to a multiple of it: not later than the input and less than one duration earlier. A non-positive duration returns the time unchanged. The location is kept. |
| `LsdServer.MakeLinks` | controller/lsdserver/util.go:59-122 | The links stored on the status are exactly `Links` of its license reference, its current rights end and the configuration. Only `ls.links` changes. |
| `LsdServer.LinksUnfolded` | controller/lsdserver/util.go:70-121 | The link set is the license link, then the register, return and renew links, each present exactly when offered. |
| `LsdServer.LinksStartWithLicense` | controller/lsdserver/util.go:70-89 | The set is never empty. Its first link has the relation whose name is `license`, the LCP license media type, is not templated, and points at `LicenseHref`. |
| `LsdServer.LinkPresentIffOffered` | controller/lsdserver/util.go:64-119 | A relation has a link if and only if it is offered. The license link is always offered. Register is offered iff the register flag is set. Return and renew are offered iff their flag is set and the license has a valid, non-zero rights end. |
| `LsdServer.LinksExactAndOrdered` | controller/lsdserver/util.go:70-121 | There are between 1 and 4 links. Each is exactly its relation's candidate: href with the `/register{?id,name}`, `/return{?id,name}` or `/renew{?end,id,name}` suffix, status-document media type, templated. Relations appear in strictly increasing order license < register < return < renew, so none appears twice. |
| `LsdServer.LinksWithoutRightsEnd` | controller/lsdserver/util.go:66-119 | Without a rights end, the set is the license link, plus the register link when registering is allowed, and nothing else, whatever the return and renew flags say. |
| `LsdServer.OfferedLinksContents` | controller/lsdserver/util.go:70-121 | Filtering candidates keeps exactly the offered relations: every kept link is its relation's candidate, and every offered relation keeps its link. |
| `LsdServer.OfferedLinksOrdered` | controller/lsdserver/util.go:70-121 | Filtering keeps the relative order of the relations. |
| `LsdServer.LicenseHrefVerbatim` | controller/lsdserver/util.go:72-80 | A configured license-link template that does not contain `{license_id}` is used verbatim. |
| `LsdServer.LicenseHrefFromAnyTemplate` | controller/lsdserver/util.go:72-80 | For every non-empty configured template, the href is the template cut at each `{license_id}` (left to right, non-overlapping) and rejoined with the license reference. The parts rejoin to the template and hold no placeholder, so every placeholder is replaced and all other text is kept. |
| `LsdServer.LicenseHrefSubstitutes` | controller/lsdserver/util.go:72-80 | Any non-empty configured template, written as parts without `{license_id}` joined by `{license_id}`, becomes those parts joined by the license reference: every placeholder is replaced and nothing else changes, whatever other braces (`{lang}`, `{?x}`) the template holds. |
| `Text.ReplaceAllVerbatim` | controller/lsdserver/util.go:73 | Replacing a non-empty pattern that does not occur leaves the string unchanged. |
| `Text.ReplaceAllSkipsPrefix` | controller/lsdserver/util.go:73 | A prefix without the pattern's first character is copied unchanged, and replacement goes on in the rest. |
| `Text.ReplaceAllSkipsUnmatched` | controller/lsdserver/util.go:73 | For a pattern with no proper prefix equal to a suffix, a prefix without the pattern followed by the pattern comes out as that prefix followed by the replacement: no match starts early and straddles the boundary. |
| `Text.ReplaceAllTemplate` | controller/lsdserver/util.go:73 | For such a pattern, parts without the pattern, joined by the pattern, come out joined by the replacement: every occurrence is replaced. |
| `Text.SplitJoin` | controller/lsdserver/util.go:73 | Cutting a string at every left-to-right, non-overlapping occurrence of a non-empty pattern and joining the parts with the pattern gives the string back. |
| `Text.SplitPartsFree` | controller/lsdserver/util.go:73 | The pattern occurs in none of the parts of that cut. |
| `Text.ReplaceAllIsSplitJoin` | controller/lsdserver/util.go:73 | For every non-empty pattern and every string, replacing every occurrence equals cutting at the pattern and joining with the replacement. |
| `LsdServer.MakeEvent` | controller/lsdserver/util.go:126-134 | Device id, device name (given name before id), event type and status key are copied into their fields. The timestamp is in UTC, a whole number of seconds, not later than `now` and less than a second earlier. |
| `LsdServer.MakeEventWholeSecond` | controller/lsdserver/util.go:130 | When `now` already falls on a whole second, the timestamp is that same instant in UTC. |
| `LsdServer.ReportedStoreError` | controller/lsdserver/util.go:51-54 | The reported error is none iff the store reported none or "record not found". Otherwise it is the store's error unchanged. |
| `LsdServer.GetEvents` | controller/lsdserver/util.go:48-55 | The status's events become whatever the query for its id returned, even alongside an error. The returned error is the store error with "record not found" mapped to none. |
| `LsdServer.NotifyRequest` | controller/lsdserver/util.go:146-167 | The PATCH goes to `base + "/licenses/" + id`. Its payload carries only the id and a valid rights end equal to the given time. It has Basic credentials iff the configured user name is non-empty, and the LCP license content type. |
| `LsdServer.NotifyLcpServer` | controller/lsdserver/util.go:139-200 | An empty base URL gives code 0 and an error, and no request is sent. A URL the HTTP library refuses gives code 0 and an error. Otherwise exactly `NotifyRequest` is sent. A transport failure gives 0 and a transport or deadline error. A failed body read gives 0 and an error. An answer gives its status code with no error, even when it is not 200. Every error comes with code 0. |
| `LsdServer.FillLicenseStatus` | controller/lsdserver/util.go:204-215 | Afterwards the links are `Links` of the status and its configuration, and the events and the returned error are those of `GetEvents`. Nothing else on the status changes; no message field is set. |

## Left out

- The localized message of `fillLicenseStatus` (controller/lsdserver/util.go:206-208) is not modelled. The lookup is an external library call, and its result goes into a local variable that is never stored on the status.
- Logging (`LogInfo`, `LogError`) is not modelled, and neither is the response body, which is only logged.
- The 10-second context deadline of `notifyLCPServer` is not modelled as time. The exchange result can only say whether the deadline had passed when the transport failed, which selects the deadline error over the transport error.
- `json.Marshal` is not modelled: the payload is the `MinimalLicense` value itself. The source discards the marshalling error when it reuses `err` on the next line.
- The content-type strings are declared in `lib/http`, which is not part of this model. The two media types are an enumeration.
- The `model` package is not part of this model. `LicenseStatus` keeps only the fields the helpers read or write. The status values (ready, active, revoked, returned, cancelled, expired) are those of the status document, and an event's type uses the same enumeration, as `makeEvent`'s signature does.
- `LsdServer.MakeEvent`: event kinds outside these six values (register, renew, return, revoke, cancel, as the status-document protocol names them) are not represented, because the enumeration the source uses for them lives in the `model` package. `MakeEvent` copies whatever value it is given, so its contract does not depend on the enumeration.
- `Model.Time.Truncate`: Go also strips the monotonic clock reading. The model has no monotonic reading, so that is not represented.
- `Text.ReplaceAll` works on characters. For an empty pattern, Go inserts the replacement between UTF-8 sequences of bytes. The model inserts it between characters (`Text.Interleave`), and the source never uses an empty pattern.
- The device register, renew, return, cancel and revoke handlers are not among the modelled files. The status transitions they perform are not modelled.

## Where the code departs from what a client might expect

The model follows the code in each case:

- A client of the notification would expect an answer other than 200 to be reported as a failure. `notifyLCPServer` returns any status code with a nil error and leaves it to its callers to compare the code with 200.
- One would expect the register link to appear only while the license can still take a registration. `makeLinks` decides from the deployment's register flag alone, without looking at the status or the device count.
- A configured license-link template could be expected to be announced as templated. `makeLinks` always marks it not templated, even when it comes from a configured template.
