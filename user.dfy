/**
 * The global view of a user: identity, credential and status fields, the ids of
 * child users and the per-application registrations the user owns.
 */
module Users {
  import opened Nullable
  import opened Opaque
  import opened Normalizer
  import opened Lists
  import opened Lookup

  /** A user's registration with one application. */
  datatype UserRegistration = UserRegistration(
    applicationId: Option<Uuid>,
    data: Option<UserData>,
    roles: Option<set<string>>,
    details: RegistrationDetails)

  /** The key the per-application lookups compare: `reg.applicationId`. */
  function ApplicationId(reg: UserRegistration): Option<Uuid> {
    reg.applicationId
  }

  /** The fields of a user that normalize() rewrites. */
  datatype Normalizable = Normalizable(
    email: Option<string>,
    encryptionScheme: Option<string>,
    firstName: Option<string>,
    fullName: Option<string>,
    lastName: Option<string>,
    middleName: Option<string>,
    mobilePhone: Option<string>,
    timezone: Option<string>,
    username: Option<string>,
    data: Option<UserData>,
    registrations: seq<UserRegistration>)

  /** What normalize() makes of those fields: the email trimmed and lower-cased,
      the other strings trimmed, the data and every registration normalized in
      place by their own normalize(). */
  function NormalizeFields(f: Normalizable, normalizeData: UserData -> UserData,
                           normalizeRegistration: UserRegistration -> UserRegistration): Normalizable
  {
    Normalizable(
      ToLowerCase(Trim(f.email)),
      Trim(f.encryptionScheme),
      Trim(f.firstName),
      Trim(f.fullName),
      Trim(f.lastName),
      Trim(f.middleName),
      Trim(f.mobilePhone),
      Trim(f.timezone),
      Trim(f.username),
      IfPresent(normalizeData, f.data),
      ForEach(normalizeRegistration, f.registrations))
  }

  /** normalize() is idempotent whenever the nested normalize() calls are. */
  lemma NormalizeFieldsIdempotent(f: Normalizable, normalizeData: UserData -> UserData,
                                  normalizeRegistration: UserRegistration -> UserRegistration)
    requires Idempotent(normalizeData) && Idempotent(normalizeRegistration)
    ensures NormalizeFields(NormalizeFields(f, normalizeData, normalizeRegistration),
                            normalizeData, normalizeRegistration) ==
            NormalizeFields(f, normalizeData, normalizeRegistration)
  {
    NormalizeFieldIdempotent(f.email);
    NormalizeFieldIdempotent(f.encryptionScheme);
    NormalizeFieldIdempotent(f.firstName);
    NormalizeFieldIdempotent(f.fullName);
    NormalizeFieldIdempotent(f.lastName);
    NormalizeFieldIdempotent(f.middleName);
    NormalizeFieldIdempotent(f.mobilePhone);
    NormalizeFieldIdempotent(f.timezone);
    NormalizeFieldIdempotent(f.username);
    IfPresentIdempotent(normalizeData, f.data);
    ForEachIdempotent(normalizeRegistration, f.registrations);
  }

  /** normalize() leaves the fields unchanged exactly when the email is null or
      trimmed and lower case, every other string is null or trimmed, and the data
      and every registration are already fixed by their own normalize(). */
  lemma NormalizeFieldsFixedPoint(f: Normalizable, normalizeData: UserData -> UserData,
                                  normalizeRegistration: UserRegistration -> UserRegistration)
    ensures NormalizeFields(f, normalizeData, normalizeRegistration) == f <==>
              && IsNormalizedEmail(f.email)
              && IsTrimmedOrNull(f.encryptionScheme)
              && IsTrimmedOrNull(f.firstName)
              && IsTrimmedOrNull(f.fullName)
              && IsTrimmedOrNull(f.lastName)
              && IsTrimmedOrNull(f.middleName)
              && IsTrimmedOrNull(f.mobilePhone)
              && IsTrimmedOrNull(f.timezone)
              && IsTrimmedOrNull(f.username)
              && FixedOrNull(normalizeData, f.data)
              && AllFixed(normalizeRegistration, f.registrations)
  {
    EmailFixedPoint(f.email);
    TrimFixedPoint(f.encryptionScheme);
    TrimFixedPoint(f.firstName);
    TrimFixedPoint(f.fullName);
    TrimFixedPoint(f.lastName);
    TrimFixedPoint(f.middleName);
    TrimFixedPoint(f.mobilePhone);
    TrimFixedPoint(f.timezone);
    TrimFixedPoint(f.username);
    IfPresentFixedPoint(normalizeData, f.data);
    ForEachFixedPoint(normalizeRegistration, f.registrations);
  }

  class User {
    var childIds: seq<Uuid>
    var registrations: seq<UserRegistration>
    var active: bool
    var birthDate: Option<LocalDate>
    var cleanSpeakId: Option<Uuid>
    var parentalConsentType: Option<ParentalConsentType>
    var data: Option<UserData>
    var email: Option<string>
    var encryptionScheme: Option<string>
    var expiry: Option<ZonedDateTime>
    var firstName: Option<string>
    var fullName: Option<string>
    var id: Option<Uuid>
    var imageUrl: Option<Uri>
    var lastLoginInstant: Option<ZonedDateTime>
    var lastName: Option<string>
    var middleName: Option<string>
    var mobilePhone: Option<string>
    var parentId: Option<Uuid>
    var password: Option<string>
    var passwordChangeRequired: bool
    var salt: Option<string>
    var timezone: Option<string>
    var twoFactorEnabled: bool
    var twoFactorSecret: Option<string>
    var username: Option<string>
    var usernameStatus: Option<ContentStatus>
    var verificationId: Option<string>
    var verificationIdCreateInstant: Option<ZonedDateTime>
    var verified: bool

    /** The fields normalize() rewrites, as one value. */
    ghost function NormalizableFields(): Normalizable
      reads this
    {
      Normalizable(email, encryptionScheme, firstName, fullName, lastName, middleName,
                   mobilePhone, timezone, username, data, registrations)
    }

    /** normalize() would change nothing (see NormalizeFieldsFixedPoint for what
        that means field by field). */
    ghost predicate IsNormalized(normalizeData: UserData -> UserData,
                                 normalizeRegistration: UserRegistration -> UserRegistration)
      reads this
    {
      NormalizeFields(NormalizableFields(), normalizeData, normalizeRegistration) == NormalizableFields()
    }

    /** The credential fields secure() clears are all null. */
    predicate IsSecured()
      reads this
    {
      password.None? && salt.None? && twoFactorSecret.None?
    }

    /** The no-argument constructor: every reference null, every flag false, both lists empty. */
    constructor ()
      ensures childIds == [] && registrations == []
      ensures !active && !passwordChangeRequired && !twoFactorEnabled && !verified
      ensures birthDate.None? && cleanSpeakId.None? && parentalConsentType.None? && data.None?
      ensures email.None? && encryptionScheme.None? && expiry.None? && firstName.None?
      ensures fullName.None? && id.None? && imageUrl.None? && lastLoginInstant.None?
      ensures lastName.None? && middleName.None? && mobilePhone.None? && parentId.None?
      ensures password.None? && salt.None? && timezone.None? && twoFactorSecret.None?
      ensures username.None? && usernameStatus.None? && verificationId.None?
      ensures verificationIdCreateInstant.None?
    {
      childIds, registrations := [], [];
      active, passwordChangeRequired, twoFactorEnabled, verified := false, false, false, false;
      birthDate, cleanSpeakId, parentalConsentType, data := None, None, None, None;
      email, encryptionScheme, expiry, firstName := None, None, None, None;
      fullName, id, imageUrl, lastLoginInstant := None, None, None, None;
      lastName, middleName, mobilePhone, parentId := None, None, None, None;
      password, salt, timezone, twoFactorSecret := None, None, None, None;
      username, usernameStatus, verificationId := None, None, None;
      verificationIdCreateInstant := None;
    }

    /** The full-argument constructor: stores its arguments, appends the
        registrations in argument order and then runs normalize(). */
    constructor Full(id: Option<Uuid>, email: Option<string>, username: Option<string>,
                     password: Option<string>, salt: Option<string>, birthDate: Option<LocalDate>,
                     fullName: Option<string>, firstName: Option<string>, middleName: Option<string>,
                     lastName: Option<string>, encryptionScheme: Option<string>,
                     expiry: Option<ZonedDateTime>, active: bool, timezone: Option<string>,
                     cleanSpeakId: Option<Uuid>, data: Option<UserData>, verified: bool,
                     verificationId: Option<string>, usernameStatus: Option<ContentStatus>,
                     twoFactorSecret: Option<string>, imageUri: Option<Uri>,
                     registrations: seq<UserRegistration>,
                     normalizeData: UserData -> UserData,
                     normalizeRegistration: UserRegistration -> UserRegistration)
      ensures this.id == id && this.password == password && this.salt == salt
      ensures this.birthDate == birthDate && this.expiry == expiry && this.active == active
      ensures this.cleanSpeakId == cleanSpeakId && this.verificationId == verificationId
      ensures this.verified == verified && this.usernameStatus == usernameStatus
      ensures this.twoFactorSecret == twoFactorSecret && this.imageUrl == imageUri
      ensures this.email == ToLowerCase(Trim(email))
      ensures this.encryptionScheme == Trim(encryptionScheme)
      ensures this.firstName == Trim(firstName) && this.fullName == Trim(fullName)
      ensures this.lastName == Trim(lastName) && this.middleName == Trim(middleName)
      ensures this.timezone == Trim(timezone) && this.username == Trim(username)
      ensures this.data == IfPresent(normalizeData, data)
      ensures this.registrations == ForEach(normalizeRegistration, registrations)
      ensures childIds == [] && mobilePhone.None? && parentId.None? && parentalConsentType.None?
      ensures lastLoginInstant.None? && verificationIdCreateInstant.None?
      ensures !passwordChangeRequired && !twoFactorEnabled
      ensures Idempotent(normalizeData) && Idempotent(normalizeRegistration) ==>
                IsNormalized(normalizeData, normalizeRegistration)
    {
      if Idempotent(normalizeData) && Idempotent(normalizeRegistration) {
        NormalizeFieldsIdempotent(
          Normalizable(email, encryptionScheme, firstName, fullName, lastName, middleName, None,
                       timezone, username, data, registrations),
          normalizeData, normalizeRegistration);
      }
      this.id := id;
      this.email := ToLowerCase(Trim(email));
      this.password := password;
      this.salt := salt;
      this.birthDate := birthDate;
      this.encryptionScheme := Trim(encryptionScheme);
      this.expiry := expiry;
      this.active := active;
      this.username := Trim(username);
      this.timezone := Trim(timezone);
      this.fullName := Trim(fullName);
      this.firstName := Trim(firstName);
      this.middleName := Trim(middleName);
      this.lastName := Trim(lastName);
      this.data := IfPresent(normalizeData, data);
      this.cleanSpeakId := cleanSpeakId;
      this.verificationId := verificationId;
      this.verified := verified;
      this.usernameStatus := usernameStatus;
      this.twoFactorSecret := twoFactorSecret;
      this.imageUrl := imageUri;
      this.registrations := ForEach(normalizeRegistration, registrations);
      childIds := [];
      mobilePhone, parentId, parentalConsentType := None, None, None;
      lastLoginInstant, verificationIdCreateInstant := None, None;
      passwordChangeRequired, twoFactorEnabled := false, false;
    }

    /** getLogin: the email when there is one, otherwise the username (null when
        both are null). */
    function Login(): (r: Option<string>)
      reads this
      ensures email.Some? ==> r == email
      ensures email.None? ==> r == username
      ensures r.None? <==> email.None? && username.None?
    {
      if email.None? then username else email
    }

    /** getName: the full name; failing that the first name, followed by a space
        and the last name when there is one; failing that null. */
    function Name(): (r: Option<string>)
      reads this
      ensures fullName.Some? ==> r == fullName
      ensures fullName.None? && firstName.Some? && lastName.Some? ==>
                r == Some(firstName.value + " " + lastName.value)
      ensures fullName.None? && firstName.Some? && lastName.None? ==> r == firstName
      ensures r.None? <==> fullName.None? && firstName.None?
    {
      if fullName.Some? then fullName
      else if firstName.Some? then
        var suffix := if lastName.Some? then " " + lastName.value else "";
        assert firstName.value + suffix ==
               if lastName.Some? then firstName.value + " " + lastName.value else firstName.value;
        Some(firstName.value + suffix)
      else None
    }

    /** getRegistrationForApplication: the first registration, in list order,
        whose applicationId equals `appId`; null when none does. A registration
        with a null applicationId reached before that throws. */
    function RegistrationForApplication(appId: Option<Uuid>): (r: Outcome<Option<UserRegistration>>)
      reads this
      ensures MissesBefore(registrations, ApplicationId, appId, |registrations|) ==> r == Normal(None)
      ensures forall k | 0 <= k < |registrations| && MissesBefore(registrations, ApplicationId, appId, k) ::
                (Hits(registrations[k], ApplicationId, appId) ==> r == Normal(Some(registrations[k]))) &&
                (registrations[k].applicationId.None? ==> r == NullPointerException)
      ensures r == Normal(None) ==> MissesBefore(registrations, ApplicationId, appId, |registrations|)
      ensures r.Normal? && r.value.Some? ==>
                r.value.value in registrations && r.value.value.applicationId == appId && appId.Some?
    {
      FindFirstSound(registrations, ApplicationId, appId);
      FindFirst(registrations, ApplicationId, appId)
    }

    /** getDataForApplication: the data of the registration that
        getRegistrationForApplication finds, null when it finds none. */
    function DataForApplication(appId: Option<Uuid>): (r: Outcome<Option<UserData>>)
      reads this
      ensures RegistrationForApplication(appId) == Normal(None) ==> r == Normal(None)
      ensures RegistrationForApplication(appId).NullPointerException? <==> r.NullPointerException?
      ensures forall reg: UserRegistration | RegistrationForApplication(appId) == Normal(Some(reg)) :: r == Normal(reg.data)
    {
      match FindFirst(registrations, ApplicationId, appId)
      case NullPointerException => NullPointerException
      case Normal(None) => Normal(None)
      case Normal(Some(reg)) => Normal(reg.data)
    }

    /** getRoleNamesForApplication: the roles of the registration that
        getRegistrationForApplication finds, null when it finds none. */
    function RoleNamesForApplication(appId: Option<Uuid>): (r: Outcome<Option<set<string>>>)
      reads this
      ensures RegistrationForApplication(appId) == Normal(None) ==> r == Normal(None)
      ensures RegistrationForApplication(appId).NullPointerException? <==> r.NullPointerException?
      ensures forall reg: UserRegistration | RegistrationForApplication(appId) == Normal(Some(reg)) :: r == Normal(reg.roles)
    {
      match FindFirst(registrations, ApplicationId, appId)
      case NullPointerException => NullPointerException
      case Normal(None) => Normal(None)
      case Normal(Some(reg)) => Normal(reg.roles)
    }

    /** equals: identity, or every field it lists equal pairwise. It does not
        list `id` nor `twoFactorEnabled`. */
    function Equals(o: User): (r: bool)
      reads this, o
      ensures this == o ==> r
      ensures r ==> Login() == o.Login() && Name() == o.Name()
      ensures r ==> forall appId :: RegistrationForApplication(appId) == o.RegistrationForApplication(appId)
      ensures r ==> (IsSecured() <==> o.IsSecured())
    {
      this == o ||
      (&& active == o.active
       && birthDate == o.birthDate
       && childIds == o.childIds
       && cleanSpeakId == o.cleanSpeakId
       && parentalConsentType == o.parentalConsentType
       && data == o.data
       && encryptionScheme == o.encryptionScheme
       && email == o.email
       && expiry == o.expiry
       && firstName == o.firstName
       && fullName == o.fullName
       && imageUrl == o.imageUrl
       && lastLoginInstant == o.lastLoginInstant
       && lastName == o.lastName
       && middleName == o.middleName
       && mobilePhone == o.mobilePhone
       && parentId == o.parentId
       && password == o.password
       && passwordChangeRequired == o.passwordChangeRequired
       && registrations == o.registrations
       && salt == o.salt
       && timezone == o.timezone
       && twoFactorSecret == o.twoFactorSecret
       && username == o.username
       && usernameStatus == o.usernameStatus
       && verificationId == o.verificationId
       && verificationIdCreateInstant == o.verificationIdCreateInstant
       && verified == o.verified)
    }

    /** normalize: trims the eight name-like fields, trims and lower-cases the
        email, and cascades to the user data and to every registration in place.
        Nothing else changes. Run on a normalized user it changes nothing. */
    method Normalize(normalizeData: UserData -> UserData,
                     normalizeRegistration: UserRegistration -> UserRegistration)
      modifies this`email, this`data, this`encryptionScheme, this`firstName, this`fullName,
               this`lastName, this`middleName, this`mobilePhone, this`timezone, this`username,
               this`registrations
      ensures NormalizableFields() ==
                NormalizeFields(old(NormalizableFields()), normalizeData, normalizeRegistration)
      ensures Login() == (if old(email).Some? then ToLowerCase(Trim(old(email))) else Trim(old(username)))
      ensures Idempotent(normalizeData) && Idempotent(normalizeRegistration) ==>
                IsNormalized(normalizeData, normalizeRegistration)
      ensures old(IsNormalized(normalizeData, normalizeRegistration)) ==>
                NormalizableFields() == old(NormalizableFields())
    {
      if Idempotent(normalizeData) && Idempotent(normalizeRegistration) {
        NormalizeFieldsIdempotent(NormalizableFields(), normalizeData, normalizeRegistration);
      }
      TrimNames();
      email := ToLowerCase(Trim(email));
      data := IfPresent(normalizeData, data);
      registrations := ForEach(normalizeRegistration, registrations);
    }

    /** The trimming half of normalize(): the eight fields it only trims. */
    method TrimNames()
      modifies this`encryptionScheme, this`firstName, this`fullName, this`lastName,
               this`middleName, this`mobilePhone, this`timezone, this`username
      ensures encryptionScheme == Trim(old(encryptionScheme))
      ensures firstName == Trim(old(firstName)) && fullName == Trim(old(fullName))
      ensures lastName == Trim(old(lastName)) && middleName == Trim(old(middleName))
      ensures mobilePhone == Trim(old(mobilePhone)) && timezone == Trim(old(timezone))
      ensures username == Trim(old(username))
    {
      encryptionScheme := Trim(encryptionScheme);
      firstName := Trim(firstName);
      fullName := Trim(fullName);
      lastName := Trim(lastName);
      middleName := Trim(middleName);
      mobilePhone := Trim(mobilePhone);
      timezone := Trim(timezone);
      username := Trim(username);
    }

    /** secure: clears the salt, the password and the two-factor secret, records
        in twoFactorEnabled whether a secret was present, and returns this user.
        Nothing else changes, so the derived accessors answer as before. */
    method Secure() returns (u: User)
      modifies this`salt, this`password, this`twoFactorEnabled, this`twoFactorSecret
      ensures u == this
      ensures IsSecured()
      ensures twoFactorEnabled <==> old(twoFactorSecret).Some?
      ensures Login() == old(Login()) && Name() == old(Name())
      ensures registrations == old(registrations)
    {
      salt := None;
      password := None;
      twoFactorEnabled := twoFactorSecret.Some?;
      twoFactorSecret := None;
      u := this;
    }
  }

  /** A second call of secure() always disables two-factor authentication,
      because the first call has already cleared the secret it consults. */
  method SecureTwice(user: User)
    modifies user
    ensures !user.twoFactorEnabled && user.IsSecured()
  {
    var u := user.Secure();
    u := user.Secure();
  }

  /** Users that agree on the 28 fields equals lists are equal, whatever their
      `id` and `twoFactorEnabled`, the two fields it leaves out. */
  lemma EqualsIgnoresIdAndTwoFactor(a: User, b: User)
    requires a.active == b.active && a.birthDate == b.birthDate && a.childIds == b.childIds &&
             a.cleanSpeakId == b.cleanSpeakId && a.parentalConsentType == b.parentalConsentType &&
             a.data == b.data && a.encryptionScheme == b.encryptionScheme && a.email == b.email &&
             a.expiry == b.expiry && a.firstName == b.firstName && a.fullName == b.fullName &&
             a.imageUrl == b.imageUrl && a.lastLoginInstant == b.lastLoginInstant &&
             a.lastName == b.lastName && a.middleName == b.middleName &&
             a.mobilePhone == b.mobilePhone && a.parentId == b.parentId &&
             a.password == b.password && a.passwordChangeRequired == b.passwordChangeRequired &&
             a.registrations == b.registrations && a.salt == b.salt && a.timezone == b.timezone &&
             a.twoFactorSecret == b.twoFactorSecret && a.username == b.username &&
             a.usernameStatus == b.usernameStatus && a.verificationId == b.verificationId &&
             a.verificationIdCreateInstant == b.verificationIdCreateInstant &&
             a.verified == b.verified
    ensures a.Equals(b)
  {
  }

  /** equals is an equivalence relation. */
  lemma EqualsIsEquivalence(a: User, b: User, c: User)
    ensures a.Equals(a)
    ensures a.Equals(b) ==> b.Equals(a)
    ensures a.Equals(b) && b.Equals(c) ==> a.Equals(c)
  {
  }
}
