/** The reads and writes the controllers issue against the tables. A write that
    breaks a declared constraint (a duplicate primary key, a duplicate
    `users.email`, `users.phone` or `cars."userId"`, a foreign key to a missing
    row) is refused by the database: it answers None and the table is left as
    it was. */
module Tables {
  import opened Wrappers
  import opened Schema

  /** The constraints on the users table alone. */
  predicate UsersOk(users: Users) {
    UsersKeyed(users) && UniqueEmails(users) && UniquePhones(users)
  }

  predicate CarsOk(cars: Cars, users: Users) {
    CarsKeyed(cars) && OneCarPerUser(cars) && CarsHaveOwners(cars, users)
  }

  /** `SELECT * FROM users WHERE phone = ?`: at most one row, by the UNIQUE constraint. */
  function UserByPhone(users: Users, phone: string): (r: Option<User>)
    requires UsersOk(users)
    ensures r.Some? <==> HasPhone(users, phone)
    ensures r.Some? ==> r.value.id in users && users[r.value.id] == r.value && r.value.phone == phone
  {
    if HasPhone(users, phone) then
      var id :| id in users && users[id].phone == phone;
      Some(users[id])
    else None
  }

  /** `SELECT * FROM users WHERE email = ?`. */
  function UserByEmail(users: Users, email: string): (r: Option<User>)
    requires UsersOk(users)
    ensures r.Some? <==> HasEmail(users, email)
    ensures r.Some? ==> r.value.id in users && users[r.value.id] == r.value && r.value.email == email
  {
    if HasEmail(users, email) then
      var id :| id in users && users[id].email == email;
      Some(users[id])
    else None
  }

  /** `SELECT * FROM users WHERE id = ?`. */
  function UserById(users: Users, id: string): (r: Option<User>)
    requires UsersKeyed(users)
    ensures r.Some? <==> id in users
    ensures r.Some? ==> r.value == users[id] && r.value.id == id
  {
    if id in users then Some(users[id]) else None
  }

  /** `SELECT * FROM cars WHERE "userId" = ?`: at most one row, by the UNIQUE
      constraint on `"userId"`. */
  function CarOfUser(cars: Cars, userId: string): (r: Option<Car>)
    requires CarsKeyed(cars) && OneCarPerUser(cars)
    ensures r.Some? <==> HasCar(cars, userId)
    ensures r.Some? ==> r.value.id in cars && cars[r.value.id] == r.value && r.value.userId == userId
  {
    if HasCar(cars, userId) then
      var id :| id in cars && cars[id].userId == userId;
      Some(cars[id])
    else None
  }

  /** A `VARCHAR(width)` column takes at most `width` characters; a longer
      value makes the statement fail. */
  predicate Fits(t: string, width: nat) {
    |t| <= width
  }

  /** The widths of the users columns a request can fill: `email VARCHAR(255)`,
      `phone VARCHAR(10)`. */
  predicate UserFits(u: User) {
    Fits(u.email, 255) && Fits(u.phone, 10)
  }

  /** `"carNumber" VARCHAR(50)`, `"carModel" VARCHAR(100)`,
      `"selectedTemplate" VARCHAR(50)`. */
  predicate CarFits(c: Car) {
    Fits(c.carNumber, 50) && Fits(c.carModel, 100) && Fits(c.selectedTemplate, 50)
  }

  /** `"scannerPhone" VARCHAR(10)`, `"scannerEmail" VARCHAR(255)`. */
  predicate ScanFits(sc: Scan) {
    Fits(sc.scannerPhone, 10) && Fits(sc.scannerEmail, 255)
  }

  /** `size VARCHAR(10)`, `format VARCHAR(10)`. */
  predicate QrFits(q: QrRecord) {
    Fits(q.size, 10) && Fits(q.format, 10)
  }

  /** `"orderId" VARCHAR(100)`, `currency VARCHAR(3)`, `status VARCHAR(20)`;
      `amount` and `"planDuration"` are `INT` columns. */
  predicate PaymentFits(p: Payment) {
    Fits(p.orderId, 100) && Fits(p.currency, 3) && Fits(p.status, 20)
    && IntColumn(p.amount) && IntColumn(p.planDuration)
  }

  /** `INSERT INTO users ...`. */
  function AddUser(users: Users, u: User): (r: Option<Users>)
    ensures r.Some? <==> u.id !in users && !HasEmail(users, u.email) && !HasPhone(users, u.phone) && UserFits(u)
    ensures r.Some? ==> r.value.Keys == users.Keys + {u.id} && r.value[u.id] == u
    ensures r.Some? ==> forall id | id in users :: r.value[id] == users[id]
    ensures r.Some? && UsersOk(users) ==> UsersOk(r.value)
  {
    if u.id in users || HasEmail(users, u.email) || HasPhone(users, u.phone) || !UserFits(u) then None
    else Some(users[u.id := u])
  }

  /** `UPDATE users SET email = ? WHERE ...` on the row with the given id: refused
      when another row holds that email already, or when it is too long. */
  function SetEmail(users: Users, id: string, email: string): (r: Option<Users>)
    requires id in users && UsersOk(users)
    ensures r.Some? <==> (!HasEmail(users, email) || users[id].email == email) && Fits(email, 255)
    ensures r.Some? ==> r.value == users[id := users[id].(email := email)]
    ensures r.Some? ==> UsersOk(r.value)
  {
    if (HasEmail(users, email) && users[id].email != email) || !Fits(email, 255) then None
    else Some(users[id := users[id].(email := email)])
  }

  /** `INSERT INTO cars ...`. */
  function AddCar(cars: Cars, users: Users, c: Car): (r: Option<Cars>)
    ensures r.Some? <==> c.id !in cars && c.userId in users && !HasCar(cars, c.userId) && CarFits(c)
    ensures r.Some? ==> r.value.Keys == cars.Keys + {c.id} && r.value[c.id] == c
    ensures r.Some? ==> forall id | id in cars :: r.value[id] == cars[id]
    ensures r.Some? && CarsOk(cars, users) ==> CarsOk(r.value, users)
  {
    if c.id in cars || c.userId !in users || HasCar(cars, c.userId) || !CarFits(c) then None
    else Some(cars[c.id := c])
  }

  predicate ScanIdUsed(scans: Scans, id: string) {
    exists i | 0 <= i < |scans| :: scans[i].id == id
  }

  /** `INSERT INTO scans ...`: the new row goes to the end of the log. */
  function AddScan(scans: Scans, cars: Cars, sc: Scan): (r: Option<Scans>)
    ensures r.Some? <==> !ScanIdUsed(scans, sc.id) && sc.carId in cars && ScanFits(sc)
    ensures r.Some? ==> r.value == scans + [sc]
    ensures r.Some? && ScanIdsDistinct(scans) ==> ScanIdsDistinct(r.value)
    ensures r.Some? && ScansHaveCars(scans, cars) ==> ScansHaveCars(r.value, cars)
  {
    if ScanIdUsed(scans, sc.id) || sc.carId !in cars || !ScanFits(sc) then None
    else Some(scans + [sc])
  }

  /** `INSERT INTO qr_codes ...`. */
  function AddQr(qrCodes: QrCodes, cars: Cars, q: QrRecord): (r: Option<QrCodes>)
    ensures r.Some? <==> q.id !in qrCodes && q.carId in cars && QrFits(q)
    ensures r.Some? ==> r.value.Keys == qrCodes.Keys + {q.id} && r.value[q.id] == q
    ensures r.Some? ==> forall id | id in qrCodes :: r.value[id] == qrCodes[id]
    ensures r.Some? && QrCodesKeyed(qrCodes) && QrCodesHaveCars(qrCodes, cars) ==>
      QrCodesKeyed(r.value) && QrCodesHaveCars(r.value, cars)
  {
    if q.id in qrCodes || q.carId !in cars || !QrFits(q) then None
    else Some(qrCodes[q.id := q])
  }

  /** `INSERT INTO payments ...`: a value too wide for its column, text or
      `INT`, is refused as well. */
  function AddPayment(payments: Payments, users: Users, p: Payment): (r: Option<Payments>)
    ensures r.Some? <==> p.id !in payments && p.userId in users && PaymentFits(p)
    ensures r.Some? ==> r.value.Keys == payments.Keys + {p.id} && r.value[p.id] == p
    ensures r.Some? ==> forall id | id in payments :: r.value[id] == payments[id]
    ensures r.Some? && PaymentsKeyed(payments) && PaymentsHaveUsers(payments, users) ==>
      PaymentsKeyed(r.value) && PaymentsHaveUsers(r.value, users)
  {
    if p.id in payments || p.userId !in users || !PaymentFits(p) then None
    else Some(payments[p.id := p])
  }

  /** `UPDATE payments SET status = ?, verifiedAt = NOW() WHERE id = ?` with the
      status 'completed'. */
  function CompletePayment(payments: Payments, id: string, now: int): (r: Payments)
    ensures r.Keys == payments.Keys
    ensures id in payments ==> r[id] == payments[id].(status := "completed", verifiedAt := Some(now))
    ensures forall k | k in payments && k != id :: r[k] == payments[k]
    ensures PaymentsKeyed(payments) ==> PaymentsKeyed(r)
    ensures forall k | k in payments :: r[k].userId == payments[k].userId
  {
    if id in payments then payments[id := payments[id].(status := "completed", verifiedAt := Some(now))]
    else payments
  }

  /** `UPDATE users SET isPremium = ?, plan = ?, premiumExpiryDate = ?,
      updatedAt = NOW() WHERE id = ?` with true and 'premium'. */
  function SetPremium(users: Users, id: string, expiry: int, now: int): (r: Users)
    ensures r.Keys == users.Keys
    ensures id in users ==>
      r[id] == users[id].(isPremium := true, plan := "premium", premiumExpiryDate := Some(expiry), updatedAt := now)
    ensures forall k | k in users && k != id :: r[k] == users[k]
    ensures forall k | k in users :: r[k].email == users[k].email && r[k].phone == users[k].phone
    ensures UsersOk(users) ==> UsersOk(r)
  {
    if id in users then
      users[id := users[id].(isPremium := true, plan := "premium", premiumExpiryDate := Some(expiry), updatedAt := now)]
    else users
  }

  /** `UPDATE users SET selectedTemplate = ?, updatedAt = NOW() WHERE id = ?`. */
  function SetTemplate(users: Users, id: string, template: string, now: int): (r: Users)
    ensures r.Keys == users.Keys
    ensures id in users ==> r[id] == users[id].(selectedTemplate := template, updatedAt := now)
    ensures forall k | k in users && k != id :: r[k] == users[k]
    ensures forall k | k in users :: r[k].email == users[k].email && r[k].phone == users[k].phone
    ensures UsersOk(users) ==> UsersOk(r)
  {
    if id in users then users[id := users[id].(selectedTemplate := template, updatedAt := now)]
    else users
  }

  /** Rows that reference users keep their targets when the users table only
      grows or changes rows in place. */
  lemma UsersGrowKeepsReferences(cars: Cars, payments: Payments, users: Users, users': Users)
    requires users.Keys <= users'.Keys
    requires CarsHaveOwners(cars, users) && PaymentsHaveUsers(payments, users)
    ensures CarsHaveOwners(cars, users') && PaymentsHaveUsers(payments, users')
  {
  }

  /** Likewise for rows that reference cars. */
  lemma CarsGrowKeepsReferences(scans: Scans, qrCodes: QrCodes, cars: Cars, cars': Cars)
    requires cars.Keys <= cars'.Keys
    requires ScansHaveCars(scans, cars) && QrCodesHaveCars(qrCodes, cars)
    ensures ScansHaveCars(scans, cars') && QrCodesHaveCars(qrCodes, cars')
  {
  }

  /** A change to the cars table that keeps its own constraints and loses no
      row keeps the whole database consistent. */
  lemma CarsChangeKeepsConsistent(users: Users, cars: Cars, cars': Cars, scans: Scans,
                                  qrCodes: QrCodes, payments: Payments)
    requires Consistent(users, cars, scans, qrCodes, payments)
    requires CarsOk(cars', users) && cars.Keys <= cars'.Keys
    ensures Consistent(users, cars', scans, qrCodes, payments)
  {
    CarsGrowKeepsReferences(scans, qrCodes, cars, cars');
  }

  /** Likewise for a change to the users table that loses no row. */
  lemma UsersChangeKeepsConsistent(users: Users, users': Users, cars: Cars, scans: Scans,
                                   qrCodes: QrCodes, payments: Payments)
    requires Consistent(users, cars, scans, qrCodes, payments)
    requires UsersOk(users') && users.Keys <= users'.Keys
    ensures Consistent(users', cars, scans, qrCodes, payments)
  {
    UsersGrowKeepsReferences(cars, payments, users, users');
  }

  /** Replacing a car by a row with the same id and owner keeps the cars
      table's constraints. */
  lemma ReplaceCarKeepsCarsOk(cars: Cars, users: Users, c: Car)
    requires CarsOk(cars, users) && c.id in cars && cars[c.id].userId == c.userId
    ensures CarsOk(cars[c.id := c], users) && cars[c.id := c].Keys == cars.Keys
  {
  }
}
