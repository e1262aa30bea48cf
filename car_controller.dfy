/** backend/controllers/carController.js: the car profile of a user. A user has
    at most one car (`cars."userId"` is UNIQUE); saveCar creates or overwrites
    it, updateCar merges a partial change into it, and getCarByQR is the public
    lookup behind a scanned code. */
module CarController {
  import opened Wrappers
  import opened Strings
  import opened Validators
  import opened Schema
  import opened Tables
  import opened Http
  import opened AuthMiddleware
  import opened Backend
  import opened JsNumbers

  /** The car fields of a request body. `customFields` is any JSON value. */
  datatype CarFields = CarFields(
    carNumber: Field, carModel: Field, customMessage: Field,
    selectedTemplate: Field, customFields: Option<Json>)

  /** `customFields || {}` */
  function FieldsOrEmpty(f: Option<Json>): (j: Json)
    ensures f.Some? && Truthy(f.value) ==> j == f.value
    ensures !(f.Some? && Truthy(f.value)) ==> j == EmptyObject
    ensures Truthy(j)
  {
    if f.Some? && Truthy(f.value) then f.value else EmptyObject
  }

  /** The row saveCar leaves for the user (lines 30-42): the existing car keeps
      its id, owner and creation time and has every other field overwritten; a
      user without a car gets a new row under the fresh id. On both paths an
      omitted message is '', an omitted template 'modern' and omitted custom
      fields `{}`. */
  function SavedCar(existing: Option<Car>, userId: string, freshId: string, body: CarFields, now: int): (c: Car)
    requires Present(body.carNumber) && Present(body.carModel)
    requires existing.Some? ==> existing.value.userId == userId
    ensures c.userId == userId && c.updatedAt == now
    ensures existing.Some? ==> c.id == existing.value.id && c.createdAt == existing.value.createdAt
    ensures existing.None? ==> c.id == freshId && c.createdAt == now
    ensures c.carNumber == body.carNumber.value && c.carModel == body.carModel.value
    ensures c.customMessage == SettingOr(body.customMessage, "")
    ensures c.selectedTemplate == SettingOr(body.selectedTemplate, "modern")
    ensures c.customFields == FieldsOrEmpty(body.customFields)
  {
    var message := SettingOr(body.customMessage, "");
    var template := SettingOr(body.selectedTemplate, "modern");
    var fields := FieldsOrEmpty(body.customFields);
    match existing
    case Some(e) =>
      e.(carNumber := body.carNumber.value, carModel := body.carModel.value, customMessage := message,
         selectedTemplate := template, customFields := fields, updatedAt := now)
    case None =>
      Car(freshId, userId, body.carNumber.value, body.carModel.value, message, template, fields, now, now)
  }

  /** Saving the same fields twice gives the row of the first save, touched
      again: same id, same creation time, only the update time moves. */
  lemma SaveTwiceSameRow(existing: Option<Car>, userId: string, id1: string, id2: string,
                         body: CarFields, t1: int, t2: int)
    requires Present(body.carNumber) && Present(body.carModel)
    requires existing.Some? ==> existing.value.userId == userId
    ensures var first := SavedCar(existing, userId, id1, body, t1);
      SavedCar(Some(first), userId, id2, body, t2) == first.(updatedAt := t2)
  {
  }

  /** The write of `saveCar` (lines 18-77), once the number and the model are
      known to be present: the caller's car is updated in place or a new row is
      inserted; a row too wide for its columns, or an insert the database refuses,
      is rolled back with 500. */
  method StoreCar(s: Store, userId: string, body: CarFields, carId: string, now: nat) returns (r: Response)
    requires s.Valid() && Present(body.carNumber) && Present(body.carModel)
    modifies s
    ensures s.Valid()
    ensures s.users == old(s.users) && s.scans == old(s.scans) && s.qrCodes == old(s.qrCodes)
    ensures s.payments == old(s.payments) && s.kv == old(s.kv)
    ensures var existing := CarOfUser(old(s.cars), userId);
      var row := SavedCar(existing, userId, carId, body, now);
      if !CarFits(row) || (existing.None? && AddCar(old(s.cars), old(s.users), row).None?) then
        r == ServerError() && s.cars == old(s.cars)
      else
        r == Ok(201, OwnCar(ViewOfCar(row))) && s.cars == old(s.cars)[row.id := row]
        && CarOfUser(s.cars, userId) == Some(row)
  {
    var existing := CarOfUser(s.cars, userId);
    var row := SavedCar(existing, userId, carId, body, now);
    if !CarFits(row) {
      return ServerError();
    }
    var next: Cars;
    if existing.Some? {
      ReplaceCarKeepsCarsOk(s.cars, s.users, row);
      next := s.cars[row.id := row];
    } else {
      var added := AddCar(s.cars, s.users, row);
      if added.None? {
        return ServerError();
      }
      next := added.value;
    }
    CarsChangeKeepsConsistent(s.users, s.cars, next, s.scans, s.qrCodes, s.payments);
    assert next[row.id] == row;
    s.cars := next;
    r := Ok(201, OwnCar(ViewOfCar(row)));
  }

  /** `saveCar` (lines 5-88). Both the number and the model are required. The
      car is then updated in place or inserted; a write the database refuses
      (a user id without a user row, a taken car id, a number, model or
      template too long for its column) is rolled back with 500. The
      answer is the row as stored, with status 201 on both paths. */
  method SaveCar(s: Store, userId: string, body: CarFields, idSuffix: string, now: nat) returns (r: Response)
    requires s.Valid()
    modifies s
    ensures s.Valid()
    ensures s.users == old(s.users) && s.scans == old(s.scans) && s.qrCodes == old(s.qrCodes)
    ensures s.payments == old(s.payments) && s.kv == old(s.kv)
    ensures !(Present(body.carNumber) && Present(body.carModel)) ==>
      r == Fail(422, "Car number and model are required", "INVALID_REQUEST") && s.cars == old(s.cars)
    ensures Present(body.carNumber) && Present(body.carModel) ==>
      var existing := CarOfUser(old(s.cars), userId);
      var row := SavedCar(existing, userId, GenerateCarId(now, idSuffix), body, now);
      if !CarFits(row) || (existing.None? && AddCar(old(s.cars), old(s.users), row).None?) then
        r == ServerError() && s.cars == old(s.cars)
      else
        r == Ok(201, OwnCar(ViewOfCar(row))) && s.cars == old(s.cars)[row.id := row]
        && CarOfUser(s.cars, userId) == Some(row)
  {
    if !Present(body.carNumber) || !Present(body.carModel) {
      return Fail(422, "Car number and model are required", "INVALID_REQUEST");
    }
    r := StoreCar(s, userId, body, GenerateCarId(now, idSuffix), now);
  }

  /** `getUserCar` (lines 91-133): the caller's own car, or 404 when there is none. */
  function GetUserCar(cars: Cars, userId: string): (r: Response)
    requires CarsKeyed(cars) && OneCarPerUser(cars)
    ensures r == Fail(404, "No car information found", "CAR_NOT_FOUND") <==> !HasCar(cars, userId)
    ensures r.status == 200 <==> HasCar(cars, userId)
    ensures r.status == 200 ==>
      exists id | id in cars :: cars[id].userId == userId && r == Ok(200, OwnCar(ViewOfCar(cars[id])))
  {
    match CarOfUser(cars, userId)
    case None => Fail(404, "No car information found", "CAR_NOT_FOUND")
    case Some(c) => Ok(200, OwnCar(ViewOfCar(c)))
  }

  /** What saveCar stored is what getUserCar reads back. */
  lemma SavedCarReadBack(cars: Cars, userId: string, row: Car)
    requires CarsKeyed(cars) && OneCarPerUser(cars)
    requires row.id in cars && cars[row.id] == row && row.userId == userId
    ensures GetUserCar(cars, userId) == Ok(200, OwnCar(ViewOfCar(row)))
  {
    assert HasCar(cars, userId);
  }

  /** The lookup key of getCarByQR: the car id or the number plate. */
  predicate MatchesCode(c: Car, code: string) {
    c.id == code || c.carNumber == code
  }

  /** The public car object: no owner name, but the owner's phone and e-mail. */
  function PublicView(c: Car, owner: User): (v: PublicCarView)
    ensures v.owner == OwnerView("Car Owner", owner.phone, owner.email)
    ensures v.id == c.id && v.carNumber == c.carNumber && v.customFields == c.customFields
  {
    PublicCarView(c.id, c.carNumber, c.carModel, c.customMessage, c.customFields,
                  OwnerView("Car Owner", owner.phone, owner.email), c.selectedTemplate)
  }

  /** `getCarByQR` (lines 136-181), a public route. The query may match several
      rows (a plate is not unique, and one car's plate may be another's id) and
      takes the first in an order the database does not fix; the model picks any
      matching car. */
  method GetCarByQr(cars: Cars, users: Users, code: string) returns (r: Response)
    requires CarsKeyed(cars) && CarsHaveOwners(cars, users)
    ensures r == Fail(404, "Car not found", "CAR_NOT_FOUND") <==>
      !exists id | id in cars :: MatchesCode(cars[id], code)
    ensures r.status == 200 <==> exists id | id in cars :: MatchesCode(cars[id], code)
    ensures r.status == 200 ==>
      exists id | id in cars && MatchesCode(cars[id], code) ::
        r == Ok(200, FoundCar(PublicView(cars[id], users[cars[id].userId])))
    ensures code in cars && (forall id | id in cars && cars[id].carNumber == code :: id == code) ==>
      r == Ok(200, FoundCar(PublicView(cars[code], users[cars[code].userId])))
  {
    if !exists id | id in cars :: MatchesCode(cars[id], code) {
      return Fail(404, "Car not found", "CAR_NOT_FOUND");
    }
    var id :| id in cars && MatchesCode(cars[id], code);
    r := Ok(200, FoundCar(PublicView(cars[id], users[cars[id].userId])));
  }

  /** The merge of updateCar (lines 208-218): number, model and template change
      only to a truthy new value, the message whenever one is given (so '' clears
      it), the custom fields wholesale when the new value is truthy. Id, owner
      and creation time never change. */
  function MergeCar(c: Car, patch: CarFields, now: int): (m: Car)
    ensures m.id == c.id && m.userId == c.userId && m.createdAt == c.createdAt && m.updatedAt == now
    ensures m.carNumber == SettingOr(patch.carNumber, c.carNumber)
    ensures m.carModel == SettingOr(patch.carModel, c.carModel)
    ensures m.selectedTemplate == SettingOr(patch.selectedTemplate, c.selectedTemplate)
    ensures m.customMessage == patch.customMessage.GetOr(c.customMessage)
    ensures m.customFields == (if patch.customFields.Some? && Truthy(patch.customFields.value)
                               then patch.customFields.value else c.customFields)
  {
    c.(carNumber := SettingOr(patch.carNumber, c.carNumber),
       carModel := SettingOr(patch.carModel, c.carModel),
       customMessage := patch.customMessage.GetOr(c.customMessage),
       selectedTemplate := SettingOr(patch.selectedTemplate, c.selectedTemplate),
       customFields := if patch.customFields.Some? && Truthy(patch.customFields.value)
                       then patch.customFields.value else c.customFields,
       updatedAt := now)
  }

  /** Applying the same patch twice is applying it once. */
  lemma MergeIdempotent(c: Car, patch: CarFields, t1: int, t2: int)
    ensures MergeCar(MergeCar(c, patch, t1), patch, t2) == MergeCar(c, patch, t2)
  {
  }

  /** An empty body changes nothing but the update time, and neither does a body
      whose fields are all falsy except the message. */
  lemma EmptyPatchKeepsCar(c: Car, now: int)
    ensures MergeCar(c, CarFields(None, None, None, None, None), now) == c.(updatedAt := now)
    ensures MergeCar(c, CarFields(Some(""), Some(""), None, Some(""), Some(JNull)), now) == c.(updatedAt := now)
  {
  }

  /** An empty message is written, unlike an empty number or model. */
  lemma EmptyMessageClears(c: Car, now: int)
    ensures MergeCar(c, CarFields(None, None, Some(""), None, None), now).customMessage == ""
    ensures MergeCar(c, CarFields(Some(""), None, None, None, None), now).carNumber == c.carNumber
  {
  }

  /** The patch brings custom fields of its own, which line 215 sends through
      `JSON.stringify`. */
  predicate NewFields(patch: CarFields) {
    patch.customFields.Some? && Truthy(patch.customFields.value)
  }

  /** What the `"customFields"` column holds after line 215 sends the value
      read at line 193 back unchanged, or None when the column refuses it. That
      value comes from the driver already parsed, and node-postgres sends it
      on by its JavaScript type: an object through `JSON.stringify`, a number or
      a boolean as its text, null as NULL, a string as raw text, which the
      column parses as JSON text, and an array as a Postgres array literal.
      The literal of the empty array is `{}`, an empty object to the column;
      that of any other array, such as `{"1","2"}`, is not JSON text. `parse`
      reads JSON text, None where it is not JSON. */
  function WrittenBack(stored: Json, parse: string -> Option<Json>): (r: Option<Json>)
    ensures stored.JArr? ==> (r.Some? <==> stored.items == [])
    ensures stored.JArr? && r.Some? ==> r.value == EmptyObject
    ensures stored.JStr? ==> r == parse(stored.s)
    ensures !stored.JArr? && !stored.JStr? ==> r == Some(stored)
  {
    match stored
    case JArr(items) => if items == [] then Some(EmptyObject) else None
    case JStr(t) => parse(t)
    case _ => Some(stored)
  }

  /** The row the `UPDATE` of updateCar (lines 208-218) stores, or None when the
      database refuses it: a field too wide for its column, or old custom
      fields written back in a form the JSON column does not take. Apart from
      the custom fields it is the merge. */
  function UpdatedRow(c: Car, patch: CarFields, now: int, parse: string -> Option<Json>): (r: Option<Car>)
    ensures r.Some? <==> CarFits(MergeCar(c, patch, now)) && (NewFields(patch) || WrittenBack(c.customFields, parse).Some?)
    ensures r.Some? && NewFields(patch) ==> r.value == MergeCar(c, patch, now)
    ensures r.Some? && !NewFields(patch) ==>
      r.value == MergeCar(c, patch, now).(customFields := WrittenBack(c.customFields, parse).value)
  {
    var m := MergeCar(c, patch, now);
    if !CarFits(m) then None
    else if NewFields(patch) then Some(m)
    else match WrittenBack(c.customFields, parse)
      case None => None
      case Some(f) => Some(m.(customFields := f))
  }

  /** Custom fields that are an object, a number or a boolean, which is what
      saveCar stores for an object, survive an update that does not replace
      them: the row is the merge. */
  lemma KeptFieldsWrittenBack(c: Car, patch: CarFields, now: int, parse: string -> Option<Json>)
    requires !NewFields(patch) && CarFits(MergeCar(c, patch, now))
    requires c.customFields.JObj? || c.customFields.JNum? || c.customFields.JBool?
    ensures UpdatedRow(c, patch, now, parse) == Some(MergeCar(c, patch, now))
  {
  }

  /** Custom fields stored as a non-empty array make every update that does
      not replace them fail; an empty array comes back as an empty object. */
  lemma StoredArrayWrittenBack(c: Car, patch: CarFields, now: int, parse: string -> Option<Json>)
    requires !NewFields(patch) && c.customFields.JArr?
    ensures c.customFields.items != [] ==> UpdatedRow(c, patch, now, parse) == None
    ensures c.customFields.items == [] && CarFits(MergeCar(c, patch, now)) ==>
      UpdatedRow(c, patch, now, parse) == Some(MergeCar(c, patch, now).(customFields := EmptyObject))
  {
  }

  /** The car object updateCar answers with. */
  function UpdatedView(c: Car): UpdatedCarView {
    UpdatedCarView(c.id, c.carNumber, c.carModel, c.customMessage, c.selectedTemplate, c.customFields, c.updatedAt)
  }

  /** The `UPDATE cars ... WHERE id = ?` of a row that keeps its id and owner. */
  method ReplaceCar(s: Store, row: Car)
    requires s.Valid() && row.id in s.cars && s.cars[row.id].userId == row.userId
    modifies s
    ensures s.Valid()
    ensures s.cars == old(s.cars)[row.id := row]
    ensures s.users == old(s.users) && s.scans == old(s.scans) && s.qrCodes == old(s.qrCodes)
    ensures s.payments == old(s.payments) && s.kv == old(s.kv)
  {
    var before := s.cars;
    ReplaceCarKeepsCarsOk(s.cars, s.users, row);
    s.cars := s.cars[row.id := row];
    CarsChangeKeepsConsistent(s.users, before, s.cars, s.scans, s.qrCodes, s.payments);
  }

  /** `updateCar` (lines 184-248): only the owner's car with that id, updated to
      UpdatedRow; 404 and no change otherwise. A row the database refuses makes
      the `UPDATE` fail: 500 and no change. `parse` is the JSON column reading
      a string written back to it. */
  method UpdateCar(s: Store, userId: string, carId: string, patch: CarFields, now: nat,
                   parse: string -> Option<Json>) returns (r: Response)
    requires s.Valid()
    modifies s
    ensures s.Valid()
    ensures s.users == old(s.users) && s.scans == old(s.scans) && s.qrCodes == old(s.qrCodes)
    ensures s.payments == old(s.payments) && s.kv == old(s.kv)
    ensures !Owns(old(s.cars), userId, carId) ==>
      r == Fail(404, "Car not found", "CAR_NOT_FOUND") && s.cars == old(s.cars)
    ensures Owns(old(s.cars), userId, carId) && UpdatedRow(old(s.cars)[carId], patch, now, parse).None? ==>
      r == ServerError() && s.cars == old(s.cars)
    ensures Owns(old(s.cars), userId, carId) && UpdatedRow(old(s.cars)[carId], patch, now, parse).Some? ==>
      var row := UpdatedRow(old(s.cars)[carId], patch, now, parse).value;
      s.cars == old(s.cars)[carId := row] && r == Ok(200, UpdatedCar(UpdatedView(row)))
  {
    if !Owns(s.cars, userId, carId) {
      return Fail(404, "Car not found", "CAR_NOT_FOUND");
    }
    var updated := UpdatedRow(s.cars[carId], patch, now, parse);
    if updated.None? {
      return ServerError();
    }
    var merged := updated.value;
    assert merged.id == carId && merged.userId == s.cars[carId].userId;
    ReplaceCar(s, merged);
    r := Ok(200, UpdatedCar(UpdatedView(merged)));
  }

  // The readers as written. The `"customFields"` column has type JSON, so the
  // driver hands its value back already parsed; getUserCar, getCarByQR and
  // updateCar then pass that value to `JSON.parse` once more (lines 121, 164
  // and 236), which turns it into text with `String` first. The members above
  // answer with the stored value instead, as saveCar does (lines 54-61).

  /** The text `String(v)` gives for an object. */
  const ObjectText := "[object Object]"

  /** `String(v)` of a parsed JSON value: an array is the text of its elements
      joined by commas, a null element giving the empty text. */
  function JsText(v: Json): (t: string)
    ensures v.JObj? ==> t == ObjectText
    ensures v.JStr? ==> t == v.s
    ensures v.JBool? ==> t == (if v.b then "true" else "false")
    ensures v.JNum? ==> ParseInt(t) == Some(v.n)
    ensures v.JArr? && v.items == [] ==> t == ""
  {
    match v
    case JNull => "null"
    case JBool(b) => if b then "true" else "false"
    case JNum(n) =>
      if n < 0 then ParseIntNegatedNatToString(-n); "-" + NatToString(-n)
      else ParseIntNatToString(n); NatToString(n)
    case JStr(t) => t
    case JArr(items) =>
      if items == [] then ""
      else Join(seq(|items|, i requires 0 <= i < |items| => if items[i].JNull? then "" else JsText(items[i])), ',')
    case JObj(_) => ObjectText
  }

  /** The characters JSON text may hold right after an opening `[`: white
      space, the closing `]`, or the first character of a value. */
  predicate MayFollowBracket(c: char) {
    c in " \t\n\r]{[\"-0123456789tfn"
  }

  /** An object's text is not JSON: it opens an array and goes on with `o`. */
  lemma ObjectTextIsNotJson(members: seq<(string, Json)>)
    ensures JsText(JObj(members))[0] == '[' && !MayFollowBracket(JsText(JObj(members))[1])
  {
  }

  /** `JSON.parse(car.customFields || '{}')` applied to the parsed value the
      driver returns: a falsy value gives `{}`, an object throws (its text is
      not JSON, as ObjectTextIsNotJson shows), any other value is parsed from
      its text. `parse` is `JSON.parse` on text, None where it throws. */
  function ReparseFields(stored: Json, parse: string -> Option<Json>): (r: Option<Json>)
    ensures stored.JObj? ==> r.None?
    ensures !Truthy(stored) ==> r == Some(EmptyObject)
    ensures Truthy(stored) && !stored.JObj? ==> r == parse(JsText(stored))
  {
    if !Truthy(stored) then Some(EmptyObject)
    else if stored.JObj? then None
    else parse(JsText(stored))
  }

  /** saveCar stores `customFields || {}`, so a request without custom fields,
      with falsy ones or with an object stores an object, which no reader as
      written can parse again. */
  lemma SavedFieldsNotReparsed(f: Option<Json>, parse: string -> Option<Json>)
    requires f.None? || !Truthy(f.value) || f.value.JObj?
    ensures ReparseFields(FieldsOrEmpty(f), parse) == None
  {
  }

  /** The answer of getUserCar for the car it found: 500 from the catch when
      the re-parse throws. */
  function OwnCarAnswer(c: Car, parse: string -> Option<Json>): (r: Response)
    ensures r == ServerError() <==> ReparseFields(c.customFields, parse).None?
    ensures c.customFields.JObj? ==> r == ServerError()
    ensures ReparseFields(c.customFields, parse).Some? ==>
      r == Ok(200, OwnCar(ViewOfCar(c).(customFields := ReparseFields(c.customFields, parse).value)))
  {
    match ReparseFields(c.customFields, parse)
    case None => ServerError()
    case Some(j) => Ok(200, OwnCar(ViewOfCar(c).(customFields := j)))
  }

  /** `getUserCar` as written (lines 91-133). */
  function GetUserCarAsWritten(cars: Cars, userId: string, parse: string -> Option<Json>): (r: Response)
    requires CarsKeyed(cars) && OneCarPerUser(cars)
    ensures r == Fail(404, "No car information found", "CAR_NOT_FOUND") <==> !HasCar(cars, userId)
    ensures r == ServerError() <==>
      HasCar(cars, userId) && ReparseFields(CarOfUser(cars, userId).value.customFields, parse).None?
    ensures HasCar(cars, userId) && CarOfUser(cars, userId).value.customFields.JObj? ==> r == ServerError()
    ensures HasCar(cars, userId) && ReparseFields(CarOfUser(cars, userId).value.customFields, parse).Some? ==>
      var c := CarOfUser(cars, userId).value;
      r == Ok(200, OwnCar(ViewOfCar(c).(customFields := ReparseFields(c.customFields, parse).value)))
  {
    match CarOfUser(cars, userId)
    case None => Fail(404, "No car information found", "CAR_NOT_FOUND")
    case Some(c) => OwnCarAnswer(c, parse)
  }

  /** The discrepancy: a car that saveCar stored without custom fields, or with
      an object, is read back by the intended getUserCar and answered 500 by
      the one written. */
  lemma SavedCarRefusedAsWritten(cars: Cars, userId: string, row: Car, f: Option<Json>,
                                 parse: string -> Option<Json>)
    requires CarsKeyed(cars) && OneCarPerUser(cars)
    requires row.id in cars && cars[row.id] == row && row.userId == userId
    requires row.customFields == FieldsOrEmpty(f) && (f.None? || !Truthy(f.value) || f.value.JObj?)
    ensures GetUserCar(cars, userId) == Ok(200, OwnCar(ViewOfCar(row)))
    ensures GetUserCarAsWritten(cars, userId, parse) == ServerError()
  {
    SavedCarReadBack(cars, userId, row);
  }

  /** The answer of getCarByQR for the car it found. */
  function PublicCarAnswer(c: Car, owner: User, parse: string -> Option<Json>): (r: Response)
    ensures r == ServerError() <==> ReparseFields(c.customFields, parse).None?
    ensures c.customFields.JObj? ==> r == ServerError()
    ensures ReparseFields(c.customFields, parse).Some? ==>
      r == Ok(200, FoundCar(PublicView(c, owner).(customFields := ReparseFields(c.customFields, parse).value)))
  {
    match ReparseFields(c.customFields, parse)
    case None => ServerError()
    case Some(j) => Ok(200, FoundCar(PublicView(c, owner).(customFields := j)))
  }

  /** `getCarByQR` as written (lines 136-181): any matching car, answered 500
      when its custom fields do not parse again, so always when every matching
      car holds an object. */
  method GetCarByQrAsWritten(cars: Cars, users: Users, code: string, parse: string -> Option<Json>)
    returns (r: Response)
    requires CarsKeyed(cars) && CarsHaveOwners(cars, users)
    ensures r == Fail(404, "Car not found", "CAR_NOT_FOUND") <==>
      !exists id | id in cars :: MatchesCode(cars[id], code)
    ensures (exists id | id in cars :: MatchesCode(cars[id], code)) ==>
      exists id | id in cars && MatchesCode(cars[id], code) ::
        r == PublicCarAnswer(cars[id], users[cars[id].userId], parse)
    ensures (forall id | id in cars && MatchesCode(cars[id], code) :: cars[id].customFields.JObj?) ==>
      r == Fail(404, "Car not found", "CAR_NOT_FOUND") || r == ServerError()
  {
    if !exists id | id in cars :: MatchesCode(cars[id], code) {
      return Fail(404, "Car not found", "CAR_NOT_FOUND");
    }
    var id :| id in cars && MatchesCode(cars[id], code);
    r := PublicCarAnswer(cars[id], users[cars[id].userId], parse);
  }

  /** `updateCar` as written (lines 184-248): UpdatedRow is written, and then
      the answer is 500 when its custom fields do not parse again, so always
      when they are an object. */
  method UpdateCarAsWritten(s: Store, userId: string, carId: string, patch: CarFields, now: nat,
                            parse: string -> Option<Json>) returns (r: Response)
    requires s.Valid()
    modifies s
    ensures s.Valid()
    ensures s.users == old(s.users) && s.scans == old(s.scans) && s.qrCodes == old(s.qrCodes)
    ensures s.payments == old(s.payments) && s.kv == old(s.kv)
    ensures !Owns(old(s.cars), userId, carId) ==>
      r == Fail(404, "Car not found", "CAR_NOT_FOUND") && s.cars == old(s.cars)
    ensures Owns(old(s.cars), userId, carId) && UpdatedRow(old(s.cars)[carId], patch, now, parse).None? ==>
      r == ServerError() && s.cars == old(s.cars)
    ensures Owns(old(s.cars), userId, carId) && UpdatedRow(old(s.cars)[carId], patch, now, parse).Some? ==>
      var merged := UpdatedRow(old(s.cars)[carId], patch, now, parse).value;
      s.cars == old(s.cars)[carId := merged]
      && (ReparseFields(merged.customFields, parse).None? ==> r == ServerError())
      && (ReparseFields(merged.customFields, parse).Some? ==>
            r == Ok(200, UpdatedCar(UpdatedView(merged).(customFields := ReparseFields(merged.customFields, parse).value))))
  {
    var written := Owns(s.cars, userId, carId) && UpdatedRow(s.cars[carId], patch, now, parse).Some?;
    r := UpdateCar(s, userId, carId, patch, now, parse);
    if written {
      var merged := s.cars[carId];
      match ReparseFields(merged.customFields, parse)
      case None => r := ServerError();
      case Some(j) => r := Ok(200, UpdatedCar(UpdatedView(merged).(customFields := j)));
    }
  }
}
