/** supabase/functions/track/index.ts: the pixel endpoint. It answers every
    request with the fixed 1×1 GIF except a CORS preflight (empty 200) and a
    request without an `id` (400 with a JSON body), and moves the matching
    row from `sent` to `opened` the first time its pixel is loaded. */
module Track {
  import opened Wrappers
  import opened Types
  import opened Database

  newtype byte = x: int | 0 <= x < 256

  /** The `id` query parameter as `url.searchParams.get("id")` yields it. */
  datatype Request = Request(httpMethod: string, id: Option<string>)

  datatype Body = NoBody | Json(text: string) | Bytes(data: seq<byte>)

  datatype Response = Response(status: int, headers: map<string, string>, body: Body)

  /** "GIF89a" */
  const GifSignature: seq<byte> := [0x47, 0x49, 0x46, 0x38, 0x39, 0x61]
  /** Logical screen 1×1, little-endian, with a two-entry global colour table. */
  const ScreenDescriptor: seq<byte> := [0x01, 0x00, 0x01, 0x00, 0x80, 0x00, 0x00]
  /** Colour 0 is white, colour 1 is black. */
  const ColourTable: seq<byte> := [0xff, 0xff, 0xff, 0x00, 0x00, 0x00]
  /** Graphic control extension as the endpoint writes it: the transparency
      flag is set and the transparent index is 1, the black entry. */
  const GraphicControl: seq<byte> := [0x21, 0xf9, 0x04, 0x01, 0x0a, 0x00, 0x01, 0x00]
  /** The same extension with transparent index 0, the colour the image draws. */
  const TransparentControl: seq<byte> := [0x21, 0xf9, 0x04, 0x01, 0x0a, 0x00, 0x00, 0x00]
  /** One 1×1 image at the origin, followed by its compressed pixel data. */
  const ImageDescriptor: seq<byte> := [0x2c, 0x00, 0x00, 0x00, 0x00, 0x01, 0x00, 0x01, 0x00, 0x00]
  /** LZW data with minimum code size 2: one 2-byte sub-block, then the terminator. */
  const ImageData: seq<byte> := [0x02, 0x02, 0x44, 0x01, 0x00]
  const Trailer: byte := 0x3b

  /** The 43-byte image, block by block, with the given graphic control extension. */
  function Gif(control: seq<byte>): seq<byte> {
    GifSignature + (ScreenDescriptor + (ColourTable + (control + (ImageDescriptor + (ImageData + [Trailer])))))
  }

  /** The bytes `getPixelResponse` writes. */
  const Pixel: seq<byte> := Gif(GraphicControl)

  /** The image with its transparent index pointing at the drawn colour. */
  const TransparentPixel: seq<byte> := Gif(TransparentControl)

  /** Where each block sits in the 43 bytes. */
  lemma {:induction false} GifLayout(control: seq<byte>)
    requires |control| == 8
    ensures |Gif(control)| == 43
    ensures Gif(control)[..6] == GifSignature && Gif(control)[42] == Trailer
    ensures Gif(control)[6..13] == ScreenDescriptor
    ensures Gif(control)[13..19] == ColourTable
    ensures Gif(control)[19..27] == control
    ensures Gif(control)[27..37] == ImageDescriptor
    ensures Gif(control)[37..42] == ImageData
  {
    var g := Gif(control);
    var t4 := ImageDescriptor + (ImageData + [Trailer]);
    var t3 := control + t4;
    var t2 := ColourTable + t3;
    var t1 := ScreenDescriptor + t2;
    assert g == GifSignature + t1;
    assert g[6..13] == t1[..7];
    assert g[13..19] == t2[..6];
    assert g[19..27] == t3[..8];
    assert g[27..37] == t4[..10];
    assert g[37..42] == t4[10..15] == (ImageData + [Trailer])[..5];
  }

  /** The transparent colour index the graphic control extension declares
      (bit 0 of its packed byte is the flag), if any. */
  function TransparentIndex(gif: seq<byte>): Option<int>
    requires |gif| == 43
  {
    if gif[22] as int % 2 == 1 then Some(gif[25] as int) else None
  }

  /** The colour index of the single pixel, read from the LZW stream. With
      minimum code size 2 the codes are 3 bits wide, least significant bit
      first: the clear code 4, the pixel's index, the end code 5. */
  function DrawnIndex(gif: seq<byte>): Option<int>
    requires |gif| == 43
  {
    var b0 := gif[39] as int;
    var b1 := gif[40] as int;
    if gif[37] == 2 && gif[38] == 2 && b0 % 8 == 4 && b0 / 64 + 4 * (b1 % 2) == 5
    then Some(b0 / 8 % 8) else None
  }

  /** The one pixel is drawn in the transparent colour. */
  predicate ShowsTransparent(gif: seq<byte>)
    requires |gif| == 43
  {
    DrawnIndex(gif).Some? && TransparentIndex(gif) == DrawnIndex(gif)
  }

  /** As written, the image draws colour 0 (white) while colour 1 is the
      transparent one: the pixel is an opaque white dot. */
  lemma PixelIsOpaqueWhite()
    ensures |Pixel| == 43
    ensures Pixel[..6] == GifSignature && Pixel[42] == Trailer
    ensures Pixel[6] == 0x01 && Pixel[7] == 0x00 && Pixel[8] == 0x01 && Pixel[9] == 0x00
    ensures DrawnIndex(Pixel) == Some(0) && TransparentIndex(Pixel) == Some(1)
    ensures Pixel[13..16] == [0xff, 0xff, 0xff]
    ensures !ShowsTransparent(Pixel)
  {
    GifLayout(GraphicControl);
    assert Pixel[6..10] == ScreenDescriptor[..4];
    assert Pixel[22] == GraphicControl[3] && Pixel[25] == GraphicControl[6];
    assert Pixel[37] == ImageData[0] && Pixel[38] == ImageData[1];
    assert Pixel[39] == ImageData[2] && Pixel[40] == ImageData[3];
  }

  /** With transparent index 0 the same image is fully transparent, and only
      that one byte differs. */
  lemma TransparentPixelIsTransparent()
    ensures |TransparentPixel| == 43
    ensures TransparentPixel[..6] == GifSignature && TransparentPixel[42] == Trailer
    ensures TransparentPixel[6] == 0x01 && TransparentPixel[7] == 0x00
    ensures TransparentPixel[8] == 0x01 && TransparentPixel[9] == 0x00
    ensures ShowsTransparent(TransparentPixel)
    ensures forall i :: 0 <= i < 43 && i != 25 ==> TransparentPixel[i] == Pixel[i]
  {
    GifLayout(GraphicControl);
    GifLayout(TransparentControl);
    assert TransparentPixel[6..10] == ScreenDescriptor[..4];
    assert TransparentPixel[22] == TransparentControl[3] && TransparentPixel[25] == TransparentControl[6];
    assert TransparentPixel[37] == ImageData[0] && TransparentPixel[38] == ImageData[1];
    assert TransparentPixel[39] == ImageData[2] && TransparentPixel[40] == ImageData[3];
    forall i | 0 <= i < 43 && i != 25 ensures TransparentPixel[i] == Pixel[i] {
      if 19 <= i < 27 {
        assert TransparentPixel[i] == TransparentControl[i - 19] && Pixel[i] == GraphicControl[i - 19];
      } else {
        assert TransparentPixel[i] == Pixel[i] by {
          assert TransparentPixel == GifSignature + (ScreenDescriptor + (ColourTable + (TransparentControl + (ImageDescriptor + (ImageData + [Trailer])))));
        }
      }
    }
  }

  /** `getPixelResponse`: 200, `image/gif`, never cached, readable from any
      origin. The body is the written `Pixel`, which is not transparent. */
  function PixelResponse(): (r: Response)
    ensures r.status == 200 && r.body.Bytes?
    ensures |r.body.data| == 43
    ensures r.body.data[..6] == GifSignature && r.body.data[42] == 0x3b
    // logical screen width and height, little-endian: a 1×1 image
    ensures r.body.data[6] as int + 256 * r.body.data[7] as int == 1
    ensures r.body.data[8] as int + 256 * r.body.data[9] as int == 1
    ensures r.body.data == Pixel && !ShowsTransparent(r.body.data)
    ensures "Content-Type" in r.headers && r.headers["Content-Type"] == "image/gif"
    ensures "Cache-Control" in r.headers && r.headers["Cache-Control"] == "no-store, no-cache, must-revalidate, max-age=0"
    ensures "Access-Control-Allow-Origin" in r.headers && r.headers["Access-Control-Allow-Origin"] == "*"
  {
    PixelIsOpaqueWhite();
    Response(200,
      map["Content-Type" := "image/gif",
          "Access-Control-Allow-Origin" := "*",
          "Cache-Control" := "no-store, no-cache, must-revalidate, max-age=0"],
      Bytes(Pixel))
  }

  /** The answer to an `OPTIONS` preflight: 200, no body, GET and OPTIONS allowed. */
  function PreflightResponse(): (r: Response)
    ensures r.status == 200 && r.body == NoBody
    ensures "Access-Control-Allow-Methods" in r.headers && r.headers["Access-Control-Allow-Methods"] == "GET, OPTIONS"
    ensures "Access-Control-Allow-Origin" in r.headers && r.headers["Access-Control-Allow-Origin"] == "*"
  {
    Response(200,
      map["Access-Control-Allow-Origin" := "*",
          "Access-Control-Allow-Methods" := "GET, OPTIONS",
          "Access-Control-Allow-Headers" := "Content-Type"],
      NoBody)
  }

  /** The answer when the `id` parameter is missing or empty: 400 with a JSON error. */
  function MissingIdResponse(): (r: Response)
    ensures r.status == 400 && r.body == Json("{\"error\":\"Missing tracking ID\"}")
    ensures "Content-Type" in r.headers && r.headers["Content-Type"] == "application/json"
  {
    Response(400,
      map["Content-Type" := "application/json", "Access-Control-Allow-Origin" := "*"],
      Json("{\"error\":\"Missing tracking ID\"}"))
  }

  /** `!trackingId` is false: the parameter is there and not empty. */
  predicate CarriesId(req: Request) {
    req.id.Some? && req.id.value != ""
  }

  /** What a successful select-and-update does to the table: the row carrying
      `tid`, if it is still `sent`, becomes `opened` at `now`; an unknown id or
      an already opened row leaves the table as it is. */
  function OpenTransition(rows: seq<Row>, tid: string, now: Time): (r: seq<Row>)
    ensures |r| == |rows|
    ensures !Database.HasTrackingId(rows, tid) ==> r == rows
  {
    match Lookup(rows, tid)
    case None => rows
    case Some(row) =>
      if row.status == Sent then UpdateWhereId(rows, row.id, OpenPatch(now)) else rows
  }

  /** The `serve` handler. Errors of the select and of the update are logged
      and never reach the caller; exceptions (`catch`) give the pixel too. */
  method Serve(db: Table, req: Request, now: Time, fetchFault: Option<DbError>, updateFault: Option<DbError>)
    returns (resp: Response)
    requires db.Valid()
    modifies db
    ensures db.Valid()
    ensures req.httpMethod == "OPTIONS" ==> resp == PreflightResponse()
    ensures req.httpMethod != "OPTIONS" && !CarriesId(req) ==> resp == MissingIdResponse()
    ensures req.httpMethod != "OPTIONS" && CarriesId(req) ==> resp == PixelResponse()
    ensures db.rows ==
      if req.httpMethod != "OPTIONS" && CarriesId(req) && fetchFault.None? && updateFault.None?
      then OpenTransition(old(db.rows), req.id.value, now)
      else old(db.rows)
    ensures AllStamped(old(db.rows)) ==> AllStamped(db.rows)
  {
    if req.httpMethod == "OPTIONS" {
      return PreflightResponse();
    }
    if req.id.None? || req.id.value == "" {
      return MissingIdResponse();
    }
    var trackingId := req.id.value;
    var existing := db.FindByTrackingId(trackingId, fetchFault);
    if existing.Failure? {
      return PixelResponse();
    }
    if existing.value.None? {
      return PixelResponse();
    }
    var row := existing.value.value;
    if row.status == Sent {
      var _ := db.Update(row.id, OpenPatch(now), updateFault);
    }
    resp := PixelResponse();
  }

  /** A `sent` row becomes `opened` at `now`; no other row is written. */
  lemma OpenTransitionOpens(rows: seq<Row>, i: nat, now: Time)
    requires UniqueKeys(rows) && i < |rows| && rows[i].status == Sent
    ensures var r := OpenTransition(rows, rows[i].tracking_id, now);
      && r[i] == rows[i].(status := Opened, opened_at := Some(now))
      && forall j :: 0 <= j < |rows| && j != i ==> r[j] == rows[j]
  {
    LookupUnique(rows, rows[i].tracking_id, i);
  }

  /** An `opened` row is never written again. */
  lemma OpenTransitionKeepsOpened(rows: seq<Row>, i: nat, now: Time)
    requires UniqueKeys(rows) && i < |rows| && rows[i].status == Opened
    ensures OpenTransition(rows, rows[i].tracking_id, now) == rows
  {
    LookupUnique(rows, rows[i].tracking_id, i);
  }

  /** First open wins: a second transition for the same id, at any later
      time, changes nothing. */
  lemma {:induction false} OpenTransitionIdempotent(rows: seq<Row>, tid: string, t1: Time, t2: Time)
    requires UniqueKeys(rows)
    ensures OpenTransition(OpenTransition(rows, tid, t1), tid, t2) == OpenTransition(rows, tid, t1)
  {
    var once := OpenTransition(rows, tid, t1);
    match Lookup(rows, tid)
    case None =>
    case Some(row) =>
      var i :| 0 <= i < |rows| && rows[i] == row;
      if row.status == Sent {
        OpenTransitionOpens(rows, i, t1);
        UpdateKeepsKeys(rows, row.id, OpenPatch(t1));
        OpenTransitionKeepsOpened(once, i, t2);
      } else {
        OpenTransitionKeepsOpened(rows, i, t2);
      }
  }

  /** The transition keeps the keys and the status/opened_at invariant. */
  lemma OpenTransitionKeepsInvariants(rows: seq<Row>, tid: string, now: Time)
    requires UniqueKeys(rows)
    ensures UniqueKeys(OpenTransition(rows, tid, now))
    ensures AllStamped(rows) ==> AllStamped(OpenTransition(rows, tid, now))
  {
    match Lookup(rows, tid)
    case None =>
    case Some(row) =>
      UpdateKeepsKeys(rows, row.id, OpenPatch(now));
      if AllStamped(rows) {
        UpdateKeepsStamp(rows, row.id, OpenPatch(now));
      }
  }

  /** Two pixel loads for the same id, at `t1` and then `t2`, with the service
      answering both: the table ends as the first load left it, so the row's
      `opened_at` is `t1`. */
  method ServeTwice(db: Table, tid: string, t1: Time, t2: Time)
    returns (first: Response, second: Response)
    requires db.Valid() && tid != ""
    modifies db
    ensures db.Valid()
    ensures first == PixelResponse() && second == PixelResponse()
    ensures db.rows == OpenTransition(old(db.rows), tid, t1)
  {
    first := Serve(db, Request("GET", Some(tid)), t1, None, None);
    OpenTransitionIdempotent(old(db.rows), tid, t1, t2);
    second := Serve(db, Request("GET", Some(tid)), t2, None, None);
  }
}
