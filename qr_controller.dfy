/** backend/controllers/qrController.js: QR records for a car. The image
    renderer (`QRCode.toDataURL`) is a function handed in from outside that may
    fail. */
module QrController {
  import opened Wrappers
  import opened Strings
  import opened Validators
  import opened Schema
  import opened Tables
  import opened Http
  import opened Backend

  const ValidSizes: seq<string> := ["3x3", "4x4"]
  const ValidFormats: seq<string> := ["pdf", "svg", "png"]

  const QrBase := "https://carqr.app/cars/"
  const CdnBase := "https://cdn.carqr.app/qr/"

  /** The text encoded in the code: the car's public page. It depends on the car
      id only, and the id can be read back from it. */
  function QrValue(carId: string): (v: string)
    ensures StartsWith(v, QrBase) && v[|QrBase|..] == carId
  {
    QrBase + carId
  }

  lemma QrValueInjective(a: string, b: string)
    ensures QrValue(a) == QrValue(b) <==> a == b
  {
    if QrValue(a) == QrValue(b) {
      assert a == QrValue(a)[|QrBase|..];
    }
  }

  /** `https://cdn.carqr.app/qr/${id}.${format}` */
  function DownloadUrl(id: string, format: string): (u: string)
    ensures StartsWith(u, CdnBase) && |u| == |CdnBase| + |id| + 1 + |format|
    ensures u[|u| - |format| - 1] == '.' && u[|u| - |format|..] == format
  {
    CdnBase + id + "." + format
  }

  /** For the accepted formats (three letters each) the address determines both
      the record id and the format. */
  lemma DownloadUrlInjective(id1: string, f1: string, id2: string, f2: string)
    requires f1 in ValidFormats && f2 in ValidFormats
    ensures DownloadUrl(id1, f1) == DownloadUrl(id2, f2) <==> id1 == id2 && f1 == f2
  {
    if DownloadUrl(id1, f1) == DownloadUrl(id2, f2) {
      var u := DownloadUrl(id1, f1);
      assert |f1| == 3 && |f2| == 3;
      assert f1 == u[|u| - 3..] == f2;
      assert id1 == u[|CdnBase|..|u| - 4];
      assert id2 == DownloadUrl(id2, f2)[|CdnBase|..|u| - 4];
    }
  }

  /** `width: format === 'pdf' ? 500 : 300`; the size never enters. */
  function RenderWidth(format: string): (w: nat)
    ensures w == 500 <==> format == "pdf"
    ensures w == 300 <==> format != "pdf"
  {
    if format == "pdf" then 500 else 300
  }

  /** The qr object generateQR answers with. */
  function GeneratedView(q: QrRecord, dataUrl: Option<string>): QrView {
    QrView(q.id, q.carId, q.size, q.format, q.qrValue, dataUrl, DownloadUrl(q.id, q.format), q.createdAt)
  }

  /** The qr object getQRCode answers with. */
  function StoredView(q: QrRecord): StoredQrView {
    StoredQrView(q.id, q.carId, q.size, q.format, q.qrValue, DownloadUrl(q.id, q.format), q.createdAt)
  }

  /** `INSERT INTO qr_codes ...` on the store (lines 51-54): the row is added
      unless the database refuses it, and nothing else changes. */
  method InsertQr(s: Store, row: QrRecord) returns (inserted: bool)
    requires s.Valid()
    modifies s
    ensures s.Valid()
    ensures s.users == old(s.users) && s.cars == old(s.cars) && s.scans == old(s.scans)
    ensures s.payments == old(s.payments) && s.kv == old(s.kv)
    ensures inserted <==> AddQr(old(s.qrCodes), old(s.cars), row).Some?
    ensures inserted ==> s.qrCodes == AddQr(old(s.qrCodes), old(s.cars), row).value
    ensures !inserted ==> s.qrCodes == old(s.qrCodes)
  {
    var added := AddQr(s.qrCodes, s.cars, row);
    if added.None? {
      return false;
    }
    s.qrCodes := added.value;
    inserted := true;
  }

  /** `generateQR` (lines 6-95). Size defaults to '3x3' and format to 'pdf' when
      absent. After the checks (a car id, a known size and format, a car of the
      caller's) exactly one row is inserted; the rendering may fail, which gives
      a null image and still a 200. */
  method GenerateQr(s: Store, userId: string, carId: Field, size: Field, format: Field, idSuffix: string,
                    render: (string, nat) -> Option<string>, now: nat) returns (r: Response)
    requires s.Valid()
    modifies s
    ensures s.Valid()
    ensures s.users == old(s.users) && s.cars == old(s.cars) && s.scans == old(s.scans)
    ensures s.payments == old(s.payments) && s.kv == old(s.kv)
    ensures !Present(carId) ==>
      r == Fail(422, "carId is required", "INVALID_REQUEST") && s.qrCodes == old(s.qrCodes)
    ensures Present(carId) && (size.GetOr("3x3") !in ValidSizes || format.GetOr("pdf") !in ValidFormats) ==>
      r == Fail(422, "Invalid size or format", "INVALID_REQUEST") && s.qrCodes == old(s.qrCodes)
    ensures Present(carId) && size.GetOr("3x3") in ValidSizes && format.GetOr("pdf") in ValidFormats
            && !Owns(old(s.cars), userId, carId.value) ==>
      r == Fail(404, "Car not found", "CAR_NOT_FOUND") && s.qrCodes == old(s.qrCodes)
    ensures Present(carId) && size.GetOr("3x3") in ValidSizes && format.GetOr("pdf") in ValidFormats
            && Owns(old(s.cars), userId, carId.value) ==>
      var q := QrRecord(GenerateQrId(now, idSuffix), carId.value, size.GetOr("3x3"), format.GetOr("pdf"),
                        QrValue(carId.value), now);
      if q.id in old(s.qrCodes) then
        r == ServerError() && s.qrCodes == old(s.qrCodes)
      else
        s.qrCodes == old(s.qrCodes)[q.id := q]
        && r == Ok(200, GeneratedQr(GeneratedView(q, render(q.qrValue, RenderWidth(q.format)))))
  {
    if !Present(carId) {
      return Fail(422, "carId is required", "INVALID_REQUEST");
    }
    var sizeValue := size.GetOr("3x3");
    var formatValue := format.GetOr("pdf");
    if sizeValue !in ValidSizes || formatValue !in ValidFormats {
      return Fail(422, "Invalid size or format", "INVALID_REQUEST");
    }
    if !Owns(s.cars, userId, carId.value) {
      return Fail(404, "Car not found", "CAR_NOT_FOUND");
    }
    var qrId := GenerateQrId(now, idSuffix);
    var qrValue := QrValue(carId.value);
    var row := QrRecord(qrId, carId.value, sizeValue, formatValue, qrValue, now);
    var inserted := InsertQr(s, row);
    if !inserted {
      return ServerError();
    }
    var qrDataUrl := render(qrValue, RenderWidth(formatValue));
    r := Ok(200, GeneratedQr(GeneratedView(row, qrDataUrl)));
  }

  /** `getQRCode` (lines 98-139), a public route. */
  function GetQrCode(qrCodes: QrCodes, qrId: string): (r: Response)
    requires QrCodesKeyed(qrCodes)
    ensures r == Fail(404, "QR code not found", "QR_NOT_FOUND") <==> qrId !in qrCodes
    ensures qrId in qrCodes ==> r == Ok(200, FoundQr(StoredView(qrCodes[qrId])))
  {
    if qrId !in qrCodes then Fail(404, "QR code not found", "QR_NOT_FOUND")
    else Ok(200, FoundQr(StoredView(qrCodes[qrId])))
  }

  /** A stored record is answered by getQRCode with the same id, car, size,
      format, value, download address and creation time generateQR gave. */
  lemma GeneratedThenFetched(qrCodes: QrCodes, q: QrRecord, dataUrl: Option<string>)
    requires QrCodesKeyed(qrCodes) && q.id in qrCodes && qrCodes[q.id] == q
    ensures var g := GeneratedView(q, dataUrl);
      var f := GetQrCode(qrCodes, q.id).body.payload.storedQr;
      f.id == g.id && f.carId == g.carId && f.size == g.size && f.format == g.format
      && f.qrValue == g.qrValue && f.downloadUrl == g.downloadUrl && f.createdAt == g.createdAt
  {
  }
}
