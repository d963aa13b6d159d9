/**
 * The records and request schemas shared by client and server: the error codes, the status of
 * an asynchronous operation, the desired-day record and the validation rules the schemas
 * impose. A schema becomes a predicate over the parsed record. Lengths count characters; the
 * email pattern is a parameter `isEmail`, since the schema library's pattern is not part of the
 * model.
 */
module SharedTypes {
  import opened Common

  const ValidationErrorCode := "VALIDATION_ERROR"
  const ServerErrorCode := "SERVER_ERROR"
  const UnknownErrorCode := "UNKNOWN_ERROR"
  const UploadErrorCode := "UPLOAD_ERROR"

  datatype AsyncOperationStatus = IDLE | IN_PROGRESS | ERROR | SUCCESS

  /** `ResponseList<T>` / the list part of a list store. */
  datatype ResponseList<T> = ResponseList(data: seq<T>, total: int, page: int, perPage: int)

  /** `min(lo).max(hi)` on a string. */
  predicate LengthIn(s: string, lo: nat, hi: nat) {
    lo <= |s| <= hi
  }

  /** `min(lo).max(hi)` on a number. */
  predicate InRange(n: int, lo: int, hi: int) {
    lo <= n <= hi
  }

  // Auth requests

  /** `AuthEmailPasswordSchema`: an email of at most 50 characters and a password of 8 to 50. */
  predicate EmailPasswordValid(isEmail: string -> bool, email: string, password: string) {
    isEmail(email) && |email| <= 50 && LengthIn(password, 8, 50)
  }

  /** `AuthPasswordResetRequestSchema`. */
  predicate PasswordResetRequestValid(isEmail: string -> bool, email: string) {
    isEmail(email) && |email| <= 50
  }

  /** `AuthPasswordResetSchema`: a password of 8 to 50 characters and a token of exactly 32. */
  predicate PasswordResetValid(password: string, token: string) {
    LengthIn(password, 8, 50) && |token| == 32
  }

  /** The names of the fields that `AuthEmailPasswordSchema` rejects. */
  function EmailPasswordErrors(isEmail: string -> bool, email: string, password: string): (errors: set<string>)
    ensures errors <= {"email", "password"}
    ensures errors == {} <==> EmailPasswordValid(isEmail, email, password)
  {
    (if isEmail(email) && |email| <= 50 then {} else {"email"})
    + (if LengthIn(password, 8, 50) then {} else {"password"})
  }

  /**
   * A valid sign-in request is also a valid reset request for the same email, and its
   * password is acceptable as a new password with any 32-character token.
   */
  lemma EmailPasswordImpliesResetRules(isEmail: string -> bool, email: string, password: string, token: string)
    requires EmailPasswordValid(isEmail, email, password)
    ensures PasswordResetRequestValid(isEmail, email)
    ensures |token| == 32 ==> PasswordResetValid(password, token)
  {
  }

  // Users

  /** `UserBaseSchema`: every field nullable; the string ones bounded in length. */
  datatype UserBase = UserBase(
    cdcAuthToken: Option<string>,
    learnerId: Option<int>,
    email: Option<string>,
    firstName: Option<string>,
    lastName: Option<string>,
    photoUrl: Option<string>)

  /** The value the schema's `.default(null)` produces when every field is left out. */
  const DefaultUserBase := UserBase(None, None, None, None, None, None)

  predicate MaxLength(s: Option<string>, hi: nat) {
    s.None? || |s.value| <= hi
  }

  predicate UserBaseValid(isEmail: string -> bool, u: UserBase) {
    && MaxLength(u.cdcAuthToken, 250)
    && (u.email.None? || (isEmail(u.email.value) && |u.email.value| <= 50))
    && MaxLength(u.firstName, 50)
    && MaxLength(u.lastName, 50)
    && MaxLength(u.photoUrl, 200)
  }

  /** Parsing `{}` gives all-null fields, and that user is valid. */
  lemma DefaultUserBaseValid(isEmail: string -> bool)
    ensures UserBaseValid(isEmail, DefaultUserBase)
  {
  }

  /** `UserUpdateSchema = UserBaseSchema.partial()`: each present field obeys the same rule. */
  datatype UserUpdate = UserUpdate(
    cdcAuthToken: Field<Option<string>>,
    learnerId: Field<Option<int>>,
    email: Field<Option<string>>,
    firstName: Field<Option<string>>,
    lastName: Field<Option<string>>,
    photoUrl: Field<Option<string>>)
  {
    function ApplyTo(u: UserBase): UserBase {
      UserBase(cdcAuthToken.Or(u.cdcAuthToken), learnerId.Or(u.learnerId), email.Or(u.email),
               firstName.Or(u.firstName), lastName.Or(u.lastName), photoUrl.Or(u.photoUrl))
    }
  }

  predicate UserUpdateValid(isEmail: string -> bool, p: UserUpdate) {
    && (p.cdcAuthToken.Absent? || MaxLength(p.cdcAuthToken.value, 250))
    && (p.email.Absent? || p.email.value.None? || (isEmail(p.email.value.value) && |p.email.value.value| <= 50))
    && (p.firstName.Absent? || MaxLength(p.firstName.value, 50))
    && (p.lastName.Absent? || MaxLength(p.lastName.value, 50))
    && (p.photoUrl.Absent? || MaxLength(p.photoUrl.value, 200))
  }

  /** A valid update applied to a valid user leaves a valid user. */
  lemma UserUpdatePreservesValid(isEmail: string -> bool, p: UserUpdate, u: UserBase)
    requires UserUpdateValid(isEmail, p) && UserBaseValid(isEmail, u)
    ensures UserBaseValid(isEmail, p.ApplyTo(u))
  {
  }

  // Desired days

  /** A row of `desired_days`: when, on one day of the week, a user wants to be available. */
  datatype DesiredDay = DesiredDay(
    id: int,
    createdAt: int,
    updatedAt: int,
    userId: int,
    dayOfWeek: int,
    startAtHour: int,
    startAtMinute: int,
    endAtHour: int,
    endAtMinute: int)
  {
    function Base(): DesiredDayBase {
      DesiredDayBase(userId, dayOfWeek, startAtHour, startAtMinute, endAtHour, endAtMinute)
    }
  }

  /** `DesiredDayBase`: the record without its id and timestamps. */
  datatype DesiredDayBase = DesiredDayBase(
    userId: int,
    dayOfWeek: int,
    startAtHour: int,
    startAtMinute: int,
    endAtHour: int,
    endAtMinute: int)

  /** `DesiredDayCreate`: the base record without `userId`, which the server fills in. */
  datatype DesiredDayCreate = DesiredDayCreate(
    dayOfWeek: int,
    startAtHour: int,
    startAtMinute: int,
    endAtHour: int,
    endAtMinute: int)

  function OmitUserId(d: DesiredDayBase): DesiredDayCreate {
    DesiredDayCreate(d.dayOfWeek, d.startAtHour, d.startAtMinute, d.endAtHour, d.endAtMinute)
  }

  function WithUserId(c: DesiredDayCreate, userId: int): DesiredDayBase {
    DesiredDayBase(userId, c.dayOfWeek, c.startAtHour, c.startAtMinute, c.endAtHour, c.endAtMinute)
  }

  /** `DesiredDayBaseSchema`: a day 0..6, hours 0..23, minutes 0..59. */
  predicate DesiredDayBaseValid(d: DesiredDayBase) {
    && InRange(d.dayOfWeek, 0, 6)
    && InRange(d.startAtHour, 0, 23) && InRange(d.startAtMinute, 0, 59)
    && InRange(d.endAtHour, 0, 23) && InRange(d.endAtMinute, 0, 59)
  }

  /** `DesiredDayCreateSchema`: the same rules on the fields it keeps. */
  predicate DesiredDayCreateValid(c: DesiredDayCreate) {
    && InRange(c.dayOfWeek, 0, 6)
    && InRange(c.startAtHour, 0, 23) && InRange(c.startAtMinute, 0, 59)
    && InRange(c.endAtHour, 0, 23) && InRange(c.endAtMinute, 0, 59)
  }

  /** `DesiredDaySchema`: the base rules; id and timestamps are unconstrained numbers and dates. */
  predicate DesiredDayValid(d: DesiredDay) {
    DesiredDayBaseValid(d.Base())
  }

  /** The create schema is the base schema minus `userId`: it accepts exactly the same records. */
  lemma CreateSchemaIsBaseWithoutUserId(d: DesiredDayBase, c: DesiredDayCreate, userId: int)
    ensures DesiredDayCreateValid(OmitUserId(d)) <==> DesiredDayBaseValid(d)
    ensures DesiredDayBaseValid(WithUserId(c, userId)) <==> DesiredDayCreateValid(c)
    ensures OmitUserId(WithUserId(c, userId)) == c
  {
  }

  /** `DesiredDayUpdateSchema = DesiredDayBaseSchema.partial()`. */
  datatype DesiredDayUpdate = DesiredDayUpdate(
    userId: Field<int>,
    dayOfWeek: Field<int>,
    startAtHour: Field<int>,
    startAtMinute: Field<int>,
    endAtHour: Field<int>,
    endAtMinute: Field<int>)
  {
    predicate IsEmpty() {
      userId.Absent? && dayOfWeek.Absent? && startAtHour.Absent? && startAtMinute.Absent?
      && endAtHour.Absent? && endAtMinute.Absent?
    }

    /** `UPDATE desired_days SET <this>` on one row. */
    function ApplyTo(d: DesiredDay): DesiredDay {
      d.(userId := userId.Or(d.userId), dayOfWeek := dayOfWeek.Or(d.dayOfWeek),
         startAtHour := startAtHour.Or(d.startAtHour), startAtMinute := startAtMinute.Or(d.startAtMinute),
         endAtHour := endAtHour.Or(d.endAtHour), endAtMinute := endAtMinute.Or(d.endAtMinute))
    }
  }

  /** The update that sets every base field. */
  function FullUpdate(b: DesiredDayBase): DesiredDayUpdate {
    DesiredDayUpdate(Present(b.userId), Present(b.dayOfWeek), Present(b.startAtHour),
                     Present(b.startAtMinute), Present(b.endAtHour), Present(b.endAtMinute))
  }

  predicate PresentIn(f: Field<int>, lo: int, hi: int) {
    f.Absent? || InRange(f.value, lo, hi)
  }

  predicate DesiredDayUpdateValid(p: DesiredDayUpdate) {
    && PresentIn(p.dayOfWeek, 0, 6)
    && PresentIn(p.startAtHour, 0, 23) && PresentIn(p.startAtMinute, 0, 59)
    && PresentIn(p.endAtHour, 0, 23) && PresentIn(p.endAtMinute, 0, 59)
  }

  /**
   * The update schema makes every field optional: the empty update is valid, an update that
   * sets every field is valid exactly when the full record is, and a valid update keeps a
   * valid day valid.
   */
  lemma UpdateSchemaIsPartialBase(b: DesiredDayBase, p: DesiredDayUpdate, d: DesiredDay)
    ensures p.IsEmpty() ==> DesiredDayUpdateValid(p)
    ensures DesiredDayUpdateValid(FullUpdate(b)) <==> DesiredDayBaseValid(b)
    ensures DesiredDayUpdateValid(p) && DesiredDayValid(d) ==> DesiredDayValid(p.ApplyTo(d))
    ensures p.ApplyTo(d).id == d.id
  {
  }

  /** The fields of a desired-day record that hold a number. */
  datatype DayField = UserIdField | DayOfWeekField | StartAtHourField | StartAtMinuteField
                    | EndAtHourField | EndAtMinuteField

  /** `item[field]`. */
  function BaseFieldValue(d: DesiredDayBase, f: DayField): int {
    match f
    case UserIdField => d.userId
    case DayOfWeekField => d.dayOfWeek
    case StartAtHourField => d.startAtHour
    case StartAtMinuteField => d.startAtMinute
    case EndAtHourField => d.endAtHour
    case EndAtMinuteField => d.endAtMinute
  }

  /** `DesiredDayCompareFields`: the keys of the base schema picked down to the four times. */
  const DesiredDayCompareFields: seq<DayField> :=
    [StartAtHourField, StartAtMinuteField, EndAtHourField, EndAtMinuteField]

  /** Two records agree on every compare field. */
  predicate SameTimes(a: DesiredDayBase, b: DesiredDayBase) {
    forall i :: 0 <= i < |DesiredDayCompareFields| ==>
      BaseFieldValue(a, DesiredDayCompareFields[i]) == BaseFieldValue(b, DesiredDayCompareFields[i])
  }

  /**
   * The compare fields are exactly the start and end times: two records agree on them iff
   * they start and end at the same time, whatever their day or owner.
   */
  lemma SameTimesIffSameStartAndEnd(a: DesiredDayBase, b: DesiredDayBase)
    ensures SameTimes(a, b) <==>
      (a.startAtHour == b.startAtHour && a.startAtMinute == b.startAtMinute
       && a.endAtHour == b.endAtHour && a.endAtMinute == b.endAtMinute)
  {
    if a.startAtHour == b.startAtHour && a.startAtMinute == b.startAtMinute
       && a.endAtHour == b.endAtHour && a.endAtMinute == b.endAtMinute {
      forall i | 0 <= i < |DesiredDayCompareFields|
        ensures BaseFieldValue(a, DesiredDayCompareFields[i]) == BaseFieldValue(b, DesiredDayCompareFields[i])
      {
      }
    }
    if SameTimes(a, b) {
      assert BaseFieldValue(a, DesiredDayCompareFields[0]) == BaseFieldValue(b, DesiredDayCompareFields[0]);
      assert BaseFieldValue(a, DesiredDayCompareFields[1]) == BaseFieldValue(b, DesiredDayCompareFields[1]);
      assert BaseFieldValue(a, DesiredDayCompareFields[2]) == BaseFieldValue(b, DesiredDayCompareFields[2]);
      assert BaseFieldValue(a, DesiredDayCompareFields[3]) == BaseFieldValue(b, DesiredDayCompareFields[3]);
    }
  }
}
