/** The JSON envelope every handler answers with: an HTTP status and either
    `{success: true, ...payload}` or `{success: false, error, code}`. */
module Http {
  import opened Wrappers
  import opened Schema

  /** A string field of a request body: absent (`undefined`) or a string. */
  type Field = Option<string>

  /** JavaScript truthiness of a string field: present and not empty. */
  predicate Present(f: Field) {
    f.Some? && f.value != ""
  }

  /** The user object of the login and profile answers (every column but `updatedAt`). */
  datatype UserView = UserView(
    id: string, email: string, phone: string, isPremium: bool, plan: string,
    hasCarInfo: bool, selectedTemplate: string, premiumExpiryDate: Option<int>, createdAt: int)

  function ViewOfUser(u: User): UserView {
    UserView(u.id, u.email, u.phone, u.isPremium, u.plan, u.hasCarInfo, u.selectedTemplate,
             u.premiumExpiryDate, u.createdAt)
  }

  /** The car object of `saveCar` and `getUserCar`. */
  datatype CarView = CarView(
    id: string, userId: string, carNumber: string, carModel: string, customMessage: string,
    selectedTemplate: string, customFields: Json, createdAt: int)

  function ViewOfCar(c: Car): CarView {
    CarView(c.id, c.userId, c.carNumber, c.carModel, c.customMessage, c.selectedTemplate,
            c.customFields, c.createdAt)
  }

  /** The owner block of the public car lookup. */
  datatype OwnerView = OwnerView(name: string, phone: string, email: string)

  /** The car object of `getCarByQR`. */
  datatype PublicCarView = PublicCarView(
    id: string, carNumber: string, carModel: string, customMessage: string,
    customFields: Json, owner: OwnerView, selectedTemplate: string)

  /** The car object of `updateCar`. */
  datatype UpdatedCarView = UpdatedCarView(
    id: string, carNumber: string, carModel: string, customMessage: string,
    selectedTemplate: string, customFields: Json, updatedAt: int)

  /** The qr object of `generateQR` (with the rendered image, null on failure). */
  datatype QrView = QrView(
    id: string, carId: string, size: string, format: string, qrValue: string,
    qrDataUrl: Option<string>, downloadUrl: string, createdAt: int)

  /** The qr object of `getQRCode`. */
  datatype StoredQrView = StoredQrView(
    id: string, carId: string, size: string, format: string, qrValue: string,
    downloadUrl: string, createdAt: int)

  /** The user object of `upgradeToPremium` (`SELECT id, isPremium, plan, premiumExpiryDate, updatedAt`). */
  datatype PremiumView = PremiumView(
    id: string, isPremium: bool, plan: string, premiumExpiryDate: Option<int>, updatedAt: int)

  datatype Payload =
    | OtpSent(message: string, expiresIn: nat, sessionId: string)
    | LoggedIn(user: UserView, token: string, refreshToken: string)
    | Tokens(token: string, refreshToken: string)
    | Message(message: string)
    | OwnCar(car: CarView)
    | FoundCar(publicCar: PublicCarView)
    | UpdatedCar(updated: UpdatedCarView)
    | GeneratedQr(qr: QrView)
    | FoundQr(storedQr: StoredQrView)
    | Activity(scan: Scan)
    | ScanPage(scans: seq<Scan>, total: nat, limit: int, offset: int)
    | PaymentOrder(paymentId: string, orderId: string, amount: int, currency: string,
                   key: Option<string>, customerId: string)
    | PaymentVerified(verifiedId: string, payer: string, status: string, paid: int,
                      planDuration: int, premiumExpiryDate: int, verifiedAt: int)
    | Profile(profile: UserView)
    | TemplateChanged(templateUserId: string, selectedTemplate: string, updatedAt: int)
    | Premium(premium: Option<PremiumView>)

  datatype Body = Failure(error: string, code: string) | Success(payload: Payload)

  datatype Response = Response(status: nat, body: Body)

  function Fail(status: nat, error: string, code: string): Response {
    Response(status, Failure(error, code))
  }

  function Ok(status: nat, payload: Payload): Response {
    Response(status, Success(payload))
  }

  /** The catch-all answer of every handler (`catch (error) { ... 500 ... }`). */
  function ServerError(): Response {
    Fail(500, "Server error", "SERVER_ERROR")
  }
}
