/** The records the License Status Document server works on: the persisted
    license status, its transaction events, the links of a status document,
    and the configuration sections the helpers read. */
module Model {

  datatype Option<+T> = None | Some(value: T)

  /** Nanoseconds in one second: Go's time.Second. */
  const Second: int := 1_000_000_000

  /** The zone a Go time.Time is presented in; it never changes the instant. */
  datatype Location = UTC | Zone(name: string)

  /** A Go time.Time: an instant, counted in nanoseconds from Go's zero time
      (January 1, year 1, 00:00:00 UTC), and the location it is shown in. */
  datatype Time = Time(nanos: int, loc: Location) {

    /** Go's Time.IsZero: the instant is the zero time, whatever the location. */
    predicate IsZero() {
      nanos == 0
    }

    /** Go's Time.UTC: the same instant, shown in UTC. */
    function InUTC(): Time {
      Time(nanos, UTC)
    }

    /** Go's Time.Truncate: rounds down to a multiple of d since the zero
        time; a non-positive d leaves the instant as it is. */
    function Truncate(d: int): (r: Time)
      ensures r.loc == loc
      ensures d <= 0 ==> r == this
      ensures d > 0 ==> r.nanos == (nanos / d) * d && r.nanos <= nanos < r.nanos + d
    {
      if d <= 0 then this else Time(nanos - nanos % d, loc)
    }
  }

  /** A nullable timestamp column. */
  datatype NullTime = NullTime(valid: bool, time: Time)

  /** The status of a license, also used as the type of a transaction event. */
  datatype Status = Ready | Active | Revoked | Returned | Cancelled | Expired

  /** One entry of the event log of a license status. */
  datatype TransactionEvent = TransactionEvent(
    deviceId: string,
    deviceName: string,
    timestamp: Time,
    eventType: Status,
    licenseStatusFk: int)

  /** The relation of a status-document link. */
  datatype Rel = License | Register | Return | Renew {
    /** The relation name written into the document. */
    function Name(): string {
      match this
      case License => "license"
      case Register => "register"
      case Return => "return"
      case Renew => "renew"
    }
  }

  /** The two media types a link can announce: an LCP license document and a
      license status document. */
  datatype MediaType = LcpLicenseJson | LsdJson

  datatype LicenseLink = LicenseLink(href: string, rel: Rel, mediaType: MediaType, templated: bool)

  /** Configuration of the status server: its public base URL and an optional
      template for the license link. */
  datatype LsdServerInfo = LsdServerInfo(publicBaseUrl: string, licenseLinkUrl: string)

  /** Configuration of the license server: its public base URL. */
  datatype ServerInfo = ServerInfo(publicBaseUrl: string)

  /** Which device interactions this deployment offers. */
  datatype LicenseStatusConfig = LicenseStatusConfig(allowRegister: bool, allowRenew: bool, allowReturn: bool)

  /** Credentials for updating licenses on the license server. */
  datatype Credentials = Credentials(username: string, password: string)

  /** The configuration sections the helpers read, loaded once. */
  datatype Config = Config(
    lsdServer: LsdServerInfo,
    lcpServer: ServerInfo,
    licenseStatus: LicenseStatusConfig,
    lcpUpdateAuth: Credentials)

  /** A license status record; the helpers fill its links and events in place. */
  class LicenseStatus {
    var id: int
    var licenseRef: string
    var status: Status
    var currentEndLicense: NullTime
    var links: seq<LicenseLink>
    var events: seq<TransactionEvent>

    constructor (id: int, licenseRef: string, status: Status, currentEndLicense: NullTime)
      ensures this.id == id && this.licenseRef == licenseRef
      ensures this.status == status && this.currentEndLicense == currentEndLicense
      ensures links == [] && events == []
    {
      this.id := id;
      this.licenseRef := licenseRef;
      this.status := status;
      this.currentEndLicense := currentEndLicense;
      links := [];
      events := [];
    }
  }
}
