/**
 * Types the domain objects hold but whose internals are not modelled: JDK value
 * types (UUID, LocalDate, ZonedDateTime, URI) and domain types whose source is
 * not part of this model. Only their equality is used.
 */
module Opaque {
  type Uuid(==, !new)
  type LocalDate(==, !new)
  type ZonedDateTime(==, !new)
  type Uri(==, !new)
  type ParentalConsentType(==, !new)
  type ContentStatus(==, !new)
  type UserData(==, !new)
  type LocalizedStrings(==, !new)
  /** The fields of a UserRegistration other than applicationId, data and roles. */
  type RegistrationDetails(==, !new)
  /** The fields of a UserActionOption other than its name. */
  type OptionDetails(==, !new)
}
