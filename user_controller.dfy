/** backend/controllers/userController.js: the caller's profile, the choice of
    card template, and the premium upgrade that checks no payment. */
module UserController {
  import opened Wrappers
  import opened Validators
  import opened Schema
  import opened Tables
  import opened Http
  import opened Backend

  /** `getUserProfile` (lines 4-47): the caller's row without `updatedAt`. */
  function GetUserProfile(users: Users, userId: string): (r: Response)
    requires UsersKeyed(users)
    ensures r == Fail(404, "User not found", "USER_NOT_FOUND") <==> userId !in users
    ensures userId in users ==> r == Ok(200, Profile(ViewOfUser(users[userId])))
  {
    match UserById(users, userId)
    case None => Fail(404, "User not found", "USER_NOT_FOUND")
    case Some(u) => Ok(200, Profile(ViewOfUser(u)))
  }

  /** The card templates a user may pick (line 55). */
  const ValidTemplates: seq<string> := ["modern", "classic", "minimal"]

  /** An in-place update of the users table that keeps every row's e-mail and
      phone, written to the store. */
  method WriteUsers(s: Store, users: Users)
    requires s.Valid() && UsersOk(users) && users.Keys == s.users.Keys
    requires forall k | k in users :: users[k].email == s.users[k].email && users[k].phone == s.users[k].phone
    modifies s
    ensures s.Valid()
    ensures s.users == users
    ensures s.cars == old(s.cars) && s.scans == old(s.scans) && s.qrCodes == old(s.qrCodes)
    ensures s.payments == old(s.payments) && s.kv == old(s.kv)
  {
    UsersChangeKeepsConsistent(s.users, users, s.cars, s.scans, s.qrCodes, s.payments);
    s.users := users;
  }

  /** `updateTemplate` (lines 50-96). An unknown template is refused before any
      write. Otherwise only the caller's template and update time change, and a
      caller without a row is answered 404. */
  method UpdateTemplate(s: Store, userId: string, templateId: Field, now: nat) returns (r: Response)
    requires s.Valid()
    modifies s
    ensures s.Valid()
    ensures s.cars == old(s.cars) && s.scans == old(s.scans) && s.qrCodes == old(s.qrCodes)
    ensures s.payments == old(s.payments) && s.kv == old(s.kv)
    ensures !(Present(templateId) && templateId.value in ValidTemplates) ==>
      r == Fail(422, "Invalid template ID", "INVALID_TEMPLATE") && s.users == old(s.users)
    ensures Present(templateId) && templateId.value in ValidTemplates && userId !in old(s.users) ==>
      r == Fail(404, "User not found", "USER_NOT_FOUND") && s.users == old(s.users)
    ensures Present(templateId) && templateId.value in ValidTemplates && userId in old(s.users) ==>
      r == Ok(200, TemplateChanged(userId, templateId.value, now))
      && s.users == SetTemplate(old(s.users), userId, templateId.value, now)
  {
    if !Present(templateId) || templateId.value !in ValidTemplates {
      return Fail(422, "Invalid template ID", "INVALID_TEMPLATE");
    }
    WriteUsers(s, SetTemplate(s.users, userId, templateId.value, now));
    if userId !in s.users {
      return Fail(404, "User not found", "USER_NOT_FOUND");
    }
    r := Ok(200, TemplateChanged(userId, templateId.value, now));
  }

  /** `upgradeToPremium` (lines 99-134). No payment is checked: the request's
      `paymentId` and `isTest` are never read. The plan runs `planDuration`
      days (365 when omitted) from now. A caller without a row is answered 200
      with no user object; an expiry that is not a valid date is refused by the
      database with 500 and nothing written. */
  method UpgradeToPremium(s: Store, userId: string, planDuration: Option<int>, now: nat) returns (r: Response)
    requires s.Valid()
    modifies s
    ensures s.Valid()
    ensures s.cars == old(s.cars) && s.scans == old(s.scans) && s.qrCodes == old(s.qrCodes)
    ensures s.payments == old(s.payments) && s.kv == old(s.kv)
    ensures var expiry := AddDays(now, planDuration.GetOr(365));
      if !DateInRange(expiry) then
        r == ServerError() && s.users == old(s.users)
      else
        s.users == SetPremium(old(s.users), userId, expiry, now)
        && r == Ok(200, Premium(if userId in old(s.users)
                                then Some(PremiumView(userId, true, "premium", Some(expiry), now))
                                else None))
  {
    var expiry := AddDays(now, planDuration.GetOr(365));
    if !DateInRange(expiry) {
      return ServerError();
    }
    WriteUsers(s, SetPremium(s.users, userId, expiry, now));
    var updated := UserById(s.users, userId);
    var view := if updated.None? then None
      else Some(PremiumView(updated.value.id, updated.value.isPremium, updated.value.plan,
                            updated.value.premiumExpiryDate, updated.value.updatedAt));
    r := Ok(200, Premium(view));
  }

  /** The template updateTemplate stored is the one getUserProfile shows, and
      nothing else in the profile changes. */
  lemma TemplateShownInProfile(users: Users, userId: string, template: string, now: int)
    requires UsersKeyed(users) && userId in users
    ensures var after := SetTemplate(users, userId, template, now);
      UsersKeyed(after)
      && GetUserProfile(after, userId) == Ok(200, Profile(ViewOfUser(users[userId]).(selectedTemplate := template)))
  {
  }

  /** After an upgrade the profile shows the premium plan and its expiry, and
      nothing else in the profile changes. */
  lemma PremiumShownInProfile(users: Users, userId: string, expiry: int, now: int)
    requires UsersKeyed(users) && userId in users
    ensures var after := SetPremium(users, userId, expiry, now);
      UsersKeyed(after)
      && GetUserProfile(after, userId)
         == Ok(200, Profile(ViewOfUser(users[userId]).(isPremium := true, plan := "premium",
                                                        premiumExpiryDate := Some(expiry))))
  {
  }

  /** Another user's profile is not touched by either update. */
  lemma OthersUnaffected(users: Users, userId: string, other: string, template: string, expiry: int, now: int)
    requires UsersKeyed(users) && other != userId
    ensures UsersKeyed(SetTemplate(users, userId, template, now)) && UsersKeyed(SetPremium(users, userId, expiry, now))
    ensures GetUserProfile(SetTemplate(users, userId, template, now), other) == GetUserProfile(users, other)
    ensures GetUserProfile(SetPremium(users, userId, expiry, now), other) == GetUserProfile(users, other)
  {
  }
}
