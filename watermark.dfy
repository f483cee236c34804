/** The watermarking download helper, with the fetch, the browser's object URLs, the anchor click and
    the toasts recorded as events in the order they happen. */
module WatermarkPdf {
  import opened Common

  /** The bytes of a fetched file. */
  type Blob = seq<bv8>

  /** The identity stamped on a document: enrolment number, phone number and an optional name. */
  datatype UserData = UserData(enrollmentNo: string, phoneNumber: string, name: Option<string>)

  /** How the fetch ends: the promise rejects, or a response arrives with its status flag and body. */
  datatype FetchOutcome = Rejected | Response(ok: bool, body: Blob)

  /** The effects the helper has on the world outside it. */
  datatype Event =
    | Fetch(url: string)
    | Watermark(payload: Blob, userData: UserData)
    | Toast(notice: Notice)
    | CreateObjectUrl(handle: string, payload: Blob)
    | Click(href: string, fileName: string)
    | Revoke(handle: string)

  const WatermarkApplied :=
    Notice("Watermark Applied", "Document has been watermarked with your information for copyright protection.", Default)
  const WatermarkFailed :=
    Notice("Watermark Failed", "There was an error applying the watermark. Please try again.", Destructive)
  const DownloadStarted := Notice("Download Started", "Your file is being downloaded with copyright protection.", Default)
  const DownloadFailed :=
    Notice("Download Failed", "There was an error downloading your file. Please try again.", Destructive)

  /** `applyWatermark`: the payload comes back untouched whether the stamping step throws or not; only
      the toast tells the two paths apart. */
  method ApplyWatermark(payload: Blob, userData: UserData, throws: bool) returns (out: Blob, events: seq<Event>)
    ensures out == payload
    ensures !throws ==> events == [Toast(WatermarkApplied)]
    ensures throws ==> events == [Toast(WatermarkFailed)] && events[0].notice.variant == Destructive
  {
    if !throws {
      events := [Toast(WatermarkApplied)];
      out := payload;
    } else {
      events := [Toast(WatermarkFailed)];
      out := payload;
    }
  }

  /** A file is saved only after a fetch that answered ok. */
  predicate SavesOnlyAfterOk(trace: seq<Event>, fetched: FetchOutcome)
  {
    (exists i :: 0 <= i < |trace| && trace[i].Click?) ==> fetched.Response? && fetched.ok
  }

  /** Every object URL created is revoked later in the trace. */
  predicate EveryUrlRevoked(trace: seq<Event>)
  {
    forall i :: 0 <= i < |trace| && trace[i].CreateObjectUrl? ==>
      exists j :: i < j < |trace| && trace[j] == Revoke(trace[i].handle)
  }

  /** Every save uses the requested file name. */
  predicate SavesAs(trace: seq<Event>, fileName: string)
  {
    forall i :: 0 <= i < |trace| && trace[i].Click? ==> trace[i].fileName == fileName
  }

  /** Every object URL wraps exactly the fetched bytes. */
  predicate DeliversFetchedBody(trace: seq<Event>, fetched: FetchOutcome)
  {
    forall i :: 0 <= i < |trace| && trace[i].CreateObjectUrl? ==> fetched.Response? && trace[i].payload == fetched.body
  }

  /** `downloadWithWatermark`: fetch; on anything but an ok response report "Download Failed" and stop;
      otherwise watermark the body, save it through an object URL under `fileName`, revoke the URL and
      report "Download Started". A failed watermark does not stop the download. No path ends in an
      exception: the method always returns its trace. `handle` stands for the URL the browser mints. */
  method DownloadWithWatermark(url: string, fileName: string, userData: UserData, fetched: FetchOutcome,
                               watermarkThrows: bool, handle: string)
    returns (trace: seq<Event>)
    ensures !(fetched.Response? && fetched.ok) ==> trace == [Fetch(url), Toast(DownloadFailed)]
    ensures fetched.Response? && fetched.ok ==>
      trace == [Fetch(url), Watermark(fetched.body, userData),
                Toast(if watermarkThrows then WatermarkFailed else WatermarkApplied),
                CreateObjectUrl(handle, fetched.body), Click(handle, fileName), Revoke(handle), Toast(DownloadStarted)]
    ensures SavesOnlyAfterOk(trace, fetched)
    ensures EveryUrlRevoked(trace)
    ensures SavesAs(trace, fileName)
    ensures DeliversFetchedBody(trace, fetched)
  {
    trace := [Fetch(url)];
    if !(fetched.Response? && fetched.ok) {
      trace := trace + [Toast(DownloadFailed)];
      return;
    }
    var body := fetched.body;
    trace := trace + [Watermark(body, userData)];
    var watermarked, events := ApplyWatermark(body, userData, watermarkThrows);
    trace := trace + events;
    trace := trace + [CreateObjectUrl(handle, watermarked), Click(handle, fileName), Revoke(handle)];
    trace := trace + [Toast(DownloadStarted)];
    assert forall i :: 0 <= i < |trace| && trace[i].CreateObjectUrl? ==> i == 3;
    assert trace[5] == Revoke(handle);
  }
}
