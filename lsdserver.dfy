/** The helpers of the License Status Document server: the link set of a
    status document, transaction events, the event read path, and the
    notification that pushes a new rights end to the license server. */
module LsdServer {
  import opened Model
  import opened Text

  const LicensesPath := "/licenses/"
  const LicenseIdPlaceholder := "{license_id}"
  const RegisterSuffix := "/register{?id,name}"
  const ReturnSuffix := "/return{?id,name}"
  const RenewSuffix := "/renew{?end,id,name}"

  // ---------------------------------------------------------------------
  // Links of a status document
  // ---------------------------------------------------------------------

  /** The license has a rights end: a valid, non-zero end date. */
  predicate HasRightsEnd(end: NullTime) {
    end.valid && !end.time.IsZero()
  }

  /** Where the license link points: the configured template with the
      license reference substituted, or the license server's own URL. */
  function LicenseHref(licenseRef: string, lsd: LsdServerInfo, lcp: ServerInfo): string {
    if lsd.licenseLinkUrl != "" then ReplaceAll(lsd.licenseLinkUrl, LicenseIdPlaceholder, licenseRef)
    else lcp.publicBaseUrl + LicensesPath + licenseRef
  }

  /** The link each relation carries when it is offered. */
  function CandidateLink(rel: Rel, licenseRef: string, lsd: LsdServerInfo, lcp: ServerInfo): (l: LicenseLink)
    ensures l.rel == rel
  {
    var interaction := lsd.publicBaseUrl + LicensesPath + licenseRef;
    match rel
    case License => LicenseLink(LicenseHref(licenseRef, lsd, lcp), License, LcpLicenseJson, false)
    case Register => LicenseLink(interaction + RegisterSuffix, Register, LsdJson, true)
    case Return => LicenseLink(interaction + ReturnSuffix, Return, LsdJson, true)
    case Renew => LicenseLink(interaction + RenewSuffix, Renew, LsdJson, true)
  }

  /** Whether a relation is offered: the license link always, register when
      the deployment allows it, return and renew when it allows them and the
      license has a rights end. */
  predicate Offered(rel: Rel, cfg: LicenseStatusConfig, end: NullTime) {
    match rel
    case License => true
    case Register => cfg.allowRegister
    case Return => cfg.allowReturn && HasRightsEnd(end)
    case Renew => cfg.allowRenew && HasRightsEnd(end)
  }

  /** The position of each relation in a status document. */
  function Rank(rel: Rel): nat {
    match rel
    case License => 0
    case Register => 1
    case Return => 2
    case Renew => 3
  }

  const RelOrder: seq<Rel> := [License, Register, Return, Renew]

  /** The candidate links of the offered relations among rels, in order. */
  function OfferedLinks(rels: seq<Rel>, licenseRef: string, end: NullTime,
                        lsd: LsdServerInfo, lcp: ServerInfo, cfg: LicenseStatusConfig): seq<LicenseLink>
  {
    if rels == [] then []
    else
      var rest := OfferedLinks(rels[1..], licenseRef, end, lsd, lcp, cfg);
      if Offered(rels[0], cfg, end) then [CandidateLink(rels[0], licenseRef, lsd, lcp)] + rest else rest
  }

  /** The link set of a status document for a license reference and end date. */
  function Links(licenseRef: string, end: NullTime,
                 lsd: LsdServerInfo, lcp: ServerInfo, cfg: LicenseStatusConfig): seq<LicenseLink>
  {
    OfferedLinks(RelOrder, licenseRef, end, lsd, lcp, cfg)
  }

  predicate HasRel(links: seq<LicenseLink>, rel: Rel) {
    exists i | 0 <= i < |links| :: links[i].rel == rel
  }

  /** Every link of the filtered list is the candidate of an offered relation
      of rels, and every offered relation of rels has its link. */
  lemma {:induction false} OfferedLinksContents(rels: seq<Rel>, licenseRef: string, end: NullTime,
                                                lsd: LsdServerInfo, lcp: ServerInfo, cfg: LicenseStatusConfig)
    ensures var r := OfferedLinks(rels, licenseRef, end, lsd, lcp, cfg);
      |r| <= |rels| &&
      (forall i | 0 <= i < |r| ::
         r[i] == CandidateLink(r[i].rel, licenseRef, lsd, lcp) && r[i].rel in rels && Offered(r[i].rel, cfg, end)) &&
      (forall rel | rel in rels && Offered(rel, cfg, end) :: HasRel(r, rel))
  {
    if rels != [] {
      OfferedLinksContents(rels[1..], licenseRef, end, lsd, lcp, cfg);
      var rest := OfferedLinks(rels[1..], licenseRef, end, lsd, lcp, cfg);
      var r := OfferedLinks(rels, licenseRef, end, lsd, lcp, cfg);
      if Offered(rels[0], cfg, end) {
        assert r == [CandidateLink(rels[0], licenseRef, lsd, lcp)] + rest;
        assert r[0].rel == rels[0];
        forall rel | rel in rels && Offered(rel, cfg, end) ensures HasRel(r, rel) {
          if rel != rels[0] {
            assert rel in rels[1..];
            var i :| 0 <= i < |rest| && rest[i].rel == rel;
            assert r[i + 1] == rest[i];
          }
        }
      } else {
        assert r == rest;
        forall rel | rel in rels && Offered(rel, cfg, end) ensures HasRel(r, rel) {
          assert rel in rels[1..];
        }
      }
    }
  }

  /** Filtering keeps the order of rels: strictly increasing ranks stay so. */
  lemma {:induction false} OfferedLinksOrdered(rels: seq<Rel>, licenseRef: string, end: NullTime,
                                               lsd: LsdServerInfo, lcp: ServerInfo, cfg: LicenseStatusConfig)
    requires forall i, j | 0 <= i < j < |rels| :: Rank(rels[i]) < Rank(rels[j])
    ensures var r := OfferedLinks(rels, licenseRef, end, lsd, lcp, cfg);
      forall i, j | 0 <= i < j < |r| :: Rank(r[i].rel) < Rank(r[j].rel)
  {
    if rels != [] {
      OfferedLinksOrdered(rels[1..], licenseRef, end, lsd, lcp, cfg);
      OfferedLinksContents(rels[1..], licenseRef, end, lsd, lcp, cfg);
      var rest := OfferedLinks(rels[1..], licenseRef, end, lsd, lcp, cfg);
      forall k | 0 <= k < |rest| ensures Rank(rels[0]) < Rank(rest[k].rel) {
        var m :| 0 <= m < |rels[1..]| && rels[1..][m] == rest[k].rel;
        assert rels[m + 1] == rest[k].rel;
      }
    }
  }

  /** The link set written out relation by relation. */
  lemma LinksUnfolded(licenseRef: string, end: NullTime,
                      lsd: LsdServerInfo, lcp: ServerInfo, cfg: LicenseStatusConfig)
    ensures Links(licenseRef, end, lsd, lcp, cfg) ==
      [CandidateLink(License, licenseRef, lsd, lcp)] +
      (if Offered(Register, cfg, end) then [CandidateLink(Register, licenseRef, lsd, lcp)] else []) +
      (if Offered(Return, cfg, end) then [CandidateLink(Return, licenseRef, lsd, lcp)] else []) +
      (if Offered(Renew, cfg, end) then [CandidateLink(Renew, licenseRef, lsd, lcp)] else [])
  {
    var r4 := OfferedLinks([Renew], licenseRef, end, lsd, lcp, cfg);
    assert [Renew][1..] == [];
    assert OfferedLinks([], licenseRef, end, lsd, lcp, cfg) == [];
    assert [CandidateLink(Renew, licenseRef, lsd, lcp)] + [] == [CandidateLink(Renew, licenseRef, lsd, lcp)];
    assert r4 == if Offered(Renew, cfg, end) then [CandidateLink(Renew, licenseRef, lsd, lcp)] else [];
    var r3 := OfferedLinks([Return, Renew], licenseRef, end, lsd, lcp, cfg);
    assert [Return, Renew][1..] == [Renew];
    assert r3 == (if Offered(Return, cfg, end) then [CandidateLink(Return, licenseRef, lsd, lcp)] else []) + r4;
    var r2 := OfferedLinks([Register, Return, Renew], licenseRef, end, lsd, lcp, cfg);
    assert [Register, Return, Renew][1..] == [Return, Renew];
    assert r2 == (if Offered(Register, cfg, end) then [CandidateLink(Register, licenseRef, lsd, lcp)] else []) + r3;
    assert RelOrder[1..] == [Register, Return, Renew];
    assert Links(licenseRef, end, lsd, lcp, cfg) == [CandidateLink(License, licenseRef, lsd, lcp)] + r2;
  }

  /** The first link is always the license link, so the set is never empty. */
  lemma LinksStartWithLicense(licenseRef: string, end: NullTime,
                              lsd: LsdServerInfo, lcp: ServerInfo, cfg: LicenseStatusConfig)
    ensures var r := Links(licenseRef, end, lsd, lcp, cfg);
      |r| >= 1 && r[0].rel.Name() == "license" &&
      r[0] == LicenseLink(LicenseHref(licenseRef, lsd, lcp), License, LcpLicenseJson, false)
  {
  }

  /** A relation has a link exactly when it is offered; in particular return
      and renew never appear without a rights end. */
  lemma LinkPresentIffOffered(rel: Rel, licenseRef: string, end: NullTime,
                              lsd: LsdServerInfo, lcp: ServerInfo, cfg: LicenseStatusConfig)
    ensures HasRel(Links(licenseRef, end, lsd, lcp, cfg), rel) <==> Offered(rel, cfg, end)
  {
    OfferedLinksContents(RelOrder, licenseRef, end, lsd, lcp, cfg);
    assert rel in RelOrder by {
      match rel
      case License => assert RelOrder[0] == rel;
      case Register => assert RelOrder[1] == rel;
      case Return => assert RelOrder[2] == rel;
      case Renew => assert RelOrder[3] == rel;
    }
  }

  /** Every link carries exactly its relation's href, media type and
      templated flag, and the relations appear in the order license,
      register, return, renew, each at most once. */
  lemma LinksExactAndOrdered(licenseRef: string, end: NullTime,
                             lsd: LsdServerInfo, lcp: ServerInfo, cfg: LicenseStatusConfig)
    ensures var r := Links(licenseRef, end, lsd, lcp, cfg);
      1 <= |r| <= 4 &&
      (forall i | 0 <= i < |r| :: r[i] == CandidateLink(r[i].rel, licenseRef, lsd, lcp)) &&
      (forall i, j | 0 <= i < j < |r| :: Rank(r[i].rel) < Rank(r[j].rel))
  {
    OfferedLinksContents(RelOrder, licenseRef, end, lsd, lcp, cfg);
    OfferedLinksOrdered(RelOrder, licenseRef, end, lsd, lcp, cfg);
  }

  /** Without a rights end the set is the license link, followed by the
      register link when registering is allowed, and nothing else. */
  lemma LinksWithoutRightsEnd(licenseRef: string, end: NullTime,
                              lsd: LsdServerInfo, lcp: ServerInfo, cfg: LicenseStatusConfig)
    requires !HasRightsEnd(end)
    ensures Links(licenseRef, end, lsd, lcp, cfg) ==
      [CandidateLink(License, licenseRef, lsd, lcp)] +
      (if cfg.allowRegister then [CandidateLink(Register, licenseRef, lsd, lcp)] else [])
  {
    LinksUnfolded(licenseRef, end, lsd, lcp, cfg);
  }

  /** A configured license-link template without the placeholder is used
      verbatim. */
  lemma LicenseHrefVerbatim(licenseRef: string, lsd: LsdServerInfo, lcp: ServerInfo)
    requires lsd.licenseLinkUrl != "" && !Occurs(lsd.licenseLinkUrl, LicenseIdPlaceholder)
    ensures LicenseHref(licenseRef, lsd, lcp) == lsd.licenseLinkUrl
  {
    ReplaceAllVerbatim(lsd.licenseLinkUrl, LicenseIdPlaceholder, licenseRef);
  }

  /** A configured template, cut at its placeholders into parts that hold
      none, gets the license reference at every placeholder, whatever other
      braces it holds. */
  lemma LicenseHrefSubstitutes(parts: seq<string>, licenseRef: string, lsd: LsdServerInfo, lcp: ServerInfo)
    requires forall k :: 0 <= k < |parts| ==> !Occurs(parts[k], LicenseIdPlaceholder)
    requires lsd.licenseLinkUrl == Join(parts, LicenseIdPlaceholder) && lsd.licenseLinkUrl != ""
    ensures LicenseHref(licenseRef, lsd, lcp) == Join(parts, licenseRef)
  {
    assert LicenseIdPlaceholder[1..] == "license_id}";
    FirstCharOnceUnbordered(LicenseIdPlaceholder);
    ReplaceAllTemplate(parts, LicenseIdPlaceholder, licenseRef);
  }

  /** Any configured template: cut it at its placeholders (the parts join
      back to the template and hold no placeholder), and the href is those
      parts joined by the license reference. */
  lemma LicenseHrefFromAnyTemplate(licenseRef: string, lsd: LsdServerInfo, lcp: ServerInfo)
    requires lsd.licenseLinkUrl != ""
    ensures var parts := Split(lsd.licenseLinkUrl, LicenseIdPlaceholder);
      Join(parts, LicenseIdPlaceholder) == lsd.licenseLinkUrl &&
      (forall k :: 0 <= k < |parts| ==> !Occurs(parts[k], LicenseIdPlaceholder)) &&
      LicenseHref(licenseRef, lsd, lcp) == Join(parts, licenseRef)
  {
    SplitJoin(lsd.licenseLinkUrl, LicenseIdPlaceholder);
    SplitPartsFree(lsd.licenseLinkUrl, LicenseIdPlaceholder);
    ReplaceAllIsSplitJoin(lsd.licenseLinkUrl, LicenseIdPlaceholder, licenseRef);
  }

  /** makeLinks: builds the link set by successive appends and stores it in
      the license status, leaving every other field as it was. */
  method MakeLinks(ls: LicenseStatus, lsdConfig: LsdServerInfo, lcpConfig: ServerInfo, licStatus: LicenseStatusConfig)
    modifies ls`links
    ensures ls.links == Links(ls.licenseRef, ls.currentEndLicense, lsdConfig, lcpConfig, licStatus)
  {
    var lsdBaseUrl := lsdConfig.publicBaseUrl;
    var licenseLinkUrl := lsdConfig.licenseLinkUrl;
    var lcpBaseUrl := lcpConfig.publicBaseUrl;
    var registerAvailable := licStatus.allowRegister;

    var licenseHasRightsEnd := ls.currentEndLicense.valid && !ls.currentEndLicense.time.IsZero();
    var returnAvailable := licStatus.allowReturn && licenseHasRightsEnd;
    var renewAvailable := licStatus.allowRenew && licenseHasRightsEnd;

    var links: seq<LicenseLink> := [];
    if licenseLinkUrl != "" {
      var licenseLinkUrlReal := ReplaceAll(licenseLinkUrl, "{license_id}", ls.licenseRef);
      links := links + [LicenseLink(licenseLinkUrlReal, License, LcpLicenseJson, false)];
    } else {
      links := links + [LicenseLink(lcpBaseUrl + "/licenses/" + ls.licenseRef, License, LcpLicenseJson, false)];
    }
    if registerAvailable {
      links := links + [LicenseLink(lsdBaseUrl + "/licenses/" + ls.licenseRef + "/register{?id,name}", Register, LsdJson, true)];
    }
    if returnAvailable {
      links := links + [LicenseLink(lsdBaseUrl + "/licenses/" + ls.licenseRef + "/return{?id,name}", Return, LsdJson, true)];
    }
    if renewAvailable {
      links := links + [LicenseLink(lsdBaseUrl + "/licenses/" + ls.licenseRef + "/renew{?end,id,name}", Renew, LsdJson, true)];
    }
    ls.links := links;
    LinksUnfolded(ls.licenseRef, ls.currentEndLicense, lsdConfig, lcpConfig, licStatus);
  }

  // ---------------------------------------------------------------------
  // Events
  // ---------------------------------------------------------------------

  /** makeEvent: an event for a device action, stamped with the current
      time cut to whole seconds in UTC. */
  function MakeEvent(status: Status, deviceName: string, deviceId: string, licenseStatusFk: int, now: Time): (e: TransactionEvent)
    ensures e.deviceId == deviceId && e.deviceName == deviceName
    ensures e.eventType == status && e.licenseStatusFk == licenseStatusFk
    ensures e.timestamp.loc == UTC
    ensures e.timestamp.nanos % Second == 0
    ensures e.timestamp.nanos <= now.nanos < e.timestamp.nanos + Second
  {
    TransactionEvent(deviceId, deviceName, now.InUTC().Truncate(Second), status, licenseStatusFk)
  }

  /** An event stamped at a whole second keeps exactly that instant, so
      stamping is idempotent. */
  lemma MakeEventWholeSecond(status: Status, deviceName: string, deviceId: string, licenseStatusFk: int, now: Time)
    requires now.nanos % Second == 0
    ensures MakeEvent(status, deviceName, deviceId, licenseStatusFk, now).timestamp == now.InUTC()
  {
  }

  /** A store error, as the event query reports it. */
  datatype StoreError = RecordNotFound | StoreFailure(message: string)

  /** What the event query returns: the events it read and its error. */
  datatype EventQuery = EventQuery(events: seq<TransactionEvent>, err: Option<StoreError>)

  /** The error getEvents reports for a store error: "record not found"
      means no events, which is not an error. */
  function ReportedStoreError(err: Option<StoreError>): (r: Option<StoreError>)
    ensures r == None <==> (err == None || err == Some(RecordNotFound))
    ensures r != None ==> r == err
  {
    if err == Some(RecordNotFound) then None else err
  }

  /** getEvents: reads the events of the license status from the store
      (the query by status id is the function eventsOf) and stores them. */
  method GetEvents(ls: LicenseStatus, eventsOf: int -> EventQuery) returns (err: Option<StoreError>)
    modifies ls`events
    ensures ls.events == eventsOf(ls.id).events
    ensures err == ReportedStoreError(eventsOf(ls.id).err)
  {
    var query := eventsOf(ls.id);
    ls.events := query.events;
    if query.err != Some(RecordNotFound) {
      return query.err;
    }
    return None;
  }

  // ---------------------------------------------------------------------
  // Notification of the license server
  // ---------------------------------------------------------------------

  /** The partial license sent to the license server: its id and the new
      end of its rights. */
  datatype MinimalLicense = MinimalLicense(id: string, rightsEnd: NullTime)

  /** The PATCH request sent to the license server. */
  datatype PatchRequest = PatchRequest(
    url: string,
    payload: MinimalLicense,
    basicAuth: Option<Credentials>,
    contentType: MediaType)

  /** How the exchange with the license server ended. */
  datatype Exchange =
    | TransportFailed(deadlineExceeded: bool)
    | BodyReadFailed
    | Answered(statusCode: int)

  datatype NotifyError =
    | UndefinedLcpBaseUrl
    | RequestNotBuilt
    | TransportError
    | DeadlineExceeded
    | BodyReadError

  /** The request a notification sends for a license id and end date. */
  function NotifyRequest(timeEnd: Time, licenseId: string, config: Config): (req: PatchRequest)
    ensures req.url == config.lcpServer.publicBaseUrl + LicensesPath + licenseId
    ensures req.payload.id == licenseId && req.payload.rightsEnd == NullTime(true, timeEnd)
    ensures req.basicAuth != None <==> config.lcpUpdateAuth.username != ""
    ensures req.basicAuth != None ==> req.basicAuth.value == config.lcpUpdateAuth
    ensures req.contentType == LcpLicenseJson
  {
    var auth := if config.lcpUpdateAuth.username != "" then Some(config.lcpUpdateAuth) else None;
    PatchRequest(config.lcpServer.publicBaseUrl + LicensesPath + licenseId,
                 MinimalLicense(licenseId, NullTime(true, timeEnd)), auth, LcpLicenseJson)
  }

  /** notifyLCPServer: pushes a new rights end to the license server.
      requestBuilds says whether the HTTP library accepts a URL, and
      roundTrip is the exchange with the server; sent is the request that
      went out, if any. */
  method NotifyLcpServer(timeEnd: Time, licenseId: string, config: Config,
                         requestBuilds: string -> bool, roundTrip: PatchRequest -> Exchange)
    returns (code: int, err: Option<NotifyError>, sent: Option<PatchRequest>)
    ensures config.lcpServer.publicBaseUrl == "" ==> code == 0 && err == Some(UndefinedLcpBaseUrl) && sent == None
    ensures err != None ==> code == 0
    ensures sent != None ==> sent.value == NotifyRequest(timeEnd, licenseId, config)
    ensures sent != None <==> config.lcpServer.publicBaseUrl != "" && requestBuilds(config.lcpServer.publicBaseUrl + LicensesPath + licenseId)
    ensures sent == None && config.lcpServer.publicBaseUrl != "" ==> err == Some(RequestNotBuilt)
    ensures sent != None ==> match roundTrip(sent.value)
      case TransportFailed(deadline) => err == Some(if deadline then DeadlineExceeded else TransportError)
      case BodyReadFailed => err == Some(BodyReadError)
      case Answered(status) => code == status && err == None
  {
    var lcpBaseUrl := config.lcpServer.publicBaseUrl;
    if |lcpBaseUrl| <= 0 {
      return 0, Some(UndefinedLcpBaseUrl), None;
    }
    var minLicense := MinimalLicense(licenseId, NullTime(true, timeEnd));
    var lcpUrl := lcpBaseUrl + "/licenses/" + licenseId;
    if !requestBuilds(lcpUrl) {
      return 0, Some(RequestNotBuilt), None;
    }
    var auth := None;
    if config.lcpUpdateAuth.username != "" {
      auth := Some(config.lcpUpdateAuth);
    }
    var req := PatchRequest(lcpUrl, minLicense, auth, LcpLicenseJson);
    sent := Some(req);
    var outcome := roundTrip(req);
    match outcome
    case TransportFailed(deadline) =>
      err := if deadline then Some(DeadlineExceeded) else Some(TransportError);
      code := 0;
    case BodyReadFailed =>
      code, err := 0, Some(BodyReadError);
    case Answered(status) =>
      code, err := status, None;
  }

  // ---------------------------------------------------------------------
  // Status document assembly
  // ---------------------------------------------------------------------

  /** fillLicenseStatus: fills the links and the events of a license status
      and reports the error of the event read. */
  method FillLicenseStatus(ls: LicenseStatus, config: Config, eventsOf: int -> EventQuery) returns (err: Option<StoreError>)
    modifies ls`links, ls`events
    ensures ls.links == Links(ls.licenseRef, ls.currentEndLicense, config.lsdServer, config.lcpServer, config.licenseStatus)
    ensures ls.events == eventsOf(ls.id).events
    ensures err == ReportedStoreError(eventsOf(ls.id).err)
  {
    MakeLinks(ls, config.lsdServer, config.lcpServer, config.licenseStatus);
    err := GetEvents(ls, eventsOf);
  }
}
