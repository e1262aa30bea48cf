/** The rows of the five tables created by backend/database.sql.js and the
    constraints the schema declares on them: primary keys, `users.email` and
    `users.phone` UNIQUE, `cars."userId"` UNIQUE, and the foreign keys from cars
    and payments to users and from scans and qr_codes to cars. */
module Schema {
  import opened Wrappers

  /** A JSON value, as a request body carries it (numbers are integers here). */
  datatype Json =
    | JNull
    | JBool(b: bool)
    | JNum(n: int)
    | JStr(s: string)
    | JArr(items: seq<Json>)
    | JObj(members: seq<(string, Json)>)

  /** JavaScript truthiness of a JSON value. */
  predicate Truthy(v: Json) {
    match v
    case JNull => false
    case JBool(b) => b
    case JNum(n) => n != 0
    case JStr(s) => s != ""
    case JArr(_) => true
    case JObj(_) => true
  }

  const EmptyObject: Json := JObj([])

  datatype User = User(
    id: string,
    email: string,
    phone: string,
    isPremium: bool,
    plan: string,
    hasCarInfo: bool,
    selectedTemplate: string,
    premiumExpiryDate: Option<int>,
    createdAt: int,
    updatedAt: int)

  datatype Car = Car(
    id: string,
    userId: string,
    carNumber: string,
    carModel: string,
    customMessage: string,
    selectedTemplate: string,
    customFields: Json,
    createdAt: int,
    updatedAt: int)

  datatype Scan = Scan(
    id: string,
    carId: string,
    scannerPhone: string,
    scannerEmail: string,
    notes: Option<string>,
    timestamp: int)

  datatype QrRecord = QrRecord(
    id: string,
    carId: string,
    size: string,
    format: string,
    qrValue: string,
    createdAt: int)

  datatype Payment = Payment(
    id: string,
    userId: string,
    orderId: string,
    amount: int,
    currency: string,
    status: string,
    planDuration: int,
    verifiedAt: Option<int>,
    createdAt: int)

  /** The values an `INT` column holds: 32-bit signed integers. */
  const IntMin: int := -0x8000_0000
  const IntMax: int := 0x7FFF_FFFF

  predicate IntColumn(n: int) {
    IntMin <= n <= IntMax
  }

  type Users = map<string, User>
  type Cars = map<string, Car>
  type Scans = seq<Scan>
  type QrCodes = map<string, QrRecord>
  type Payments = map<string, Payment>

  /** Primary keys: each row is stored under its own id. */
  predicate UsersKeyed(users: Users) {
    forall id | id in users :: users[id].id == id
  }

  predicate CarsKeyed(cars: Cars) {
    forall id | id in cars :: cars[id].id == id
  }

  predicate QrCodesKeyed(qrCodes: QrCodes) {
    forall id | id in qrCodes :: qrCodes[id].id == id
  }

  predicate PaymentsKeyed(payments: Payments) {
    forall id | id in payments :: payments[id].id == id
  }

  predicate ScanIdsDistinct(scans: Scans) {
    forall i, j | 0 <= i < j < |scans| :: scans[i].id != scans[j].id
  }

  /** `email VARCHAR(255) UNIQUE NOT NULL` */
  predicate UniqueEmails(users: Users) {
    forall a, b | a in users && b in users && users[a].email == users[b].email :: a == b
  }

  /** `phone VARCHAR(10) UNIQUE NOT NULL` */
  predicate UniquePhones(users: Users) {
    forall a, b | a in users && b in users && users[a].phone == users[b].phone :: a == b
  }

  /** `"userId" VARCHAR(100) NOT NULL UNIQUE`: at most one car per user. */
  predicate OneCarPerUser(cars: Cars) {
    forall a, b | a in cars && b in cars && cars[a].userId == cars[b].userId :: a == b
  }

  /** The foreign keys. */
  predicate CarsHaveOwners(cars: Cars, users: Users) {
    forall id | id in cars :: cars[id].userId in users
  }

  predicate ScansHaveCars(scans: Scans, cars: Cars) {
    forall i | 0 <= i < |scans| :: scans[i].carId in cars
  }

  predicate QrCodesHaveCars(qrCodes: QrCodes, cars: Cars) {
    forall id | id in qrCodes :: qrCodes[id].carId in cars
  }

  predicate PaymentsHaveUsers(payments: Payments, users: Users) {
    forall id | id in payments :: payments[id].userId in users
  }

  /** Every constraint the schema declares. */
  predicate Consistent(users: Users, cars: Cars, scans: Scans, qrCodes: QrCodes, payments: Payments) {
    && UsersKeyed(users) && UniqueEmails(users) && UniquePhones(users)
    && CarsKeyed(cars) && OneCarPerUser(cars) && CarsHaveOwners(cars, users)
    && ScanIdsDistinct(scans) && ScansHaveCars(scans, cars)
    && QrCodesKeyed(qrCodes) && QrCodesHaveCars(qrCodes, cars)
    && PaymentsKeyed(payments) && PaymentsHaveUsers(payments, users)
  }

  /** The user row with the given phone, if any (`SELECT * FROM users WHERE phone = ?`). */
  predicate HasPhone(users: Users, phone: string) {
    exists id | id in users :: users[id].phone == phone
  }

  predicate HasEmail(users: Users, email: string) {
    exists id | id in users :: users[id].email == email
  }

  /** The user owns a car (`SELECT ... FROM cars WHERE "userId" = ?` finds a row). */
  predicate HasCar(cars: Cars, userId: string) {
    exists id | id in cars :: cars[id].userId == userId
  }

  /** The car with the given id belongs to the given user
      (`SELECT * FROM cars WHERE id = ? AND "userId" = ?` finds a row). */
  predicate Owns(cars: Cars, userId: string, carId: string) {
    carId in cars && cars[carId].userId == userId
  }
}
