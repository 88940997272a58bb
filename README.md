# Passport domain objects: User and UserAction

This project models two domain objects of the Passport Java client in Dafny and
proves properties of the model.

- `User` is the global view of a user. It holds identity, credential and status
  fields, the ids of child users and the list of the user's per-application
  registrations. Its derived accessors are `getLogin` and `getName`. Its three
  first-match lookups are `getRegistrationForApplication`, `getDataForApplication`
  and `getRoleNamesForApplication`. The model also covers structural `equals`,
  `normalize()` (trim the name-like fields, trim and lower-case the email, cascade
  to the data and registrations) and `secure()` (clear the credentials).
- `UserAction` is an action that can be taken on a user. The model covers its
  three constructors, the first-match `getOption`, `usesEmailTemplate`,
  `compareTo` by name, `equals`, `normalize()` and `sortOptions()`.

## How the Java is represented

- A Java reference that may be null is an `Option` (`None` is null).
- An operation that dereferences null returns `NullPointerException` from the
  `Outcome` datatype; otherwise it returns `Normal(value)`.
- Both classes are Dafny classes with the same fields. `normalize()` and
  `secure()` are methods. Each `modifies` clause names the fields whose value
  the Java changes, by assignment or by normalizing the referenced object in
  place, so every other field is provably unchanged.
- A list a class owns is a `seq` field. `UserAction.options` is
  `Option<seq<...>>` because the field is public and `normalize()` checks it for
  null.
- `Normalizer.trim` is Java's `String.trim`: it strips every character at or
  below U+0020 from both ends. `Normalizer.toLowerCase` maps `A`–`Z` to `a`–`z`.
  Both return null for null (module `Normalizer`).
- The `normalize()` of `UserData`, `UserRegistration`, `LocalizedStrings` and
  `UserActionOption` is not visible. Each is a function parameter. Idempotence of
  `normalize()` is proved under the hypothesis that those parameters are
  idempotent (`Lists.Idempotent`).
- The natural order of `UserActionOption` is a parameter `le` ("`compareTo` is at
  most 0"). Its precondition is the `Comparable` contract: a total preorder.
- `Collections.sort` is a stable sort. It is modelled by a stable insertion sort
  (`Sorting.Sort`). `Sorting.StableSortUnique` proves that every stable sort gives
  this result.
- `stream().filter(reg -> reg.applicationId.equals(id)).findFirst()` and the
  `getOption` loop both share `Lookup.FindFirst`.
- `UUID`, `LocalDate`, `ZonedDateTime`, `URI`, `UserData`, `LocalizedStrings` and
  the other dependencies are abstract types with equality only (module `Opaque`).

## Model

| member | source | states |
|---|---|---|
| Normalizer.TrimStartDropsPrefix | src/main/java/com/inversoft/passport/domain/User.java:256-263 | the front-stripping step removes a prefix of characters at or below U+0020 and keeps the rest from the first character it must keep |
| Normalizer.TrimEndDropsSuffix | src/main/java/com/inversoft/passport/domain/User.java:256-263 | the back-stripping step removes a suffix of characters at or below U+0020 and keeps the rest up to the last character it must keep |
| Normalizer.StringTrimInfix | src/main/java/com/inversoft/passport/domain/User.java:256-263 | trim removes only a margin of characters at or below U+0020 at each end; the result is the infix of the input between those margins, and neither of its ends can be trimmed further |
| Normalizer.StringTrimFixedPoint | src/main/java/com/inversoft/passport/domain/User.java:256-263 | the result of trim is trimmed, and trimming a string leaves it unchanged exactly when neither end is trimmable |
| Normalizer.TrimFixedPoint | src/main/java/com/inversoft/passport/domain/User.java:256-263 | trim gives null or a trimmed string, and leaves a field unchanged exactly when it is null or already trimmed |
| Normalizer.StringToLowerCaseFixedPoint | src/main/java/com/inversoft/passport/domain/User.java:252 | toLowerCase leaves no upper-case letter, and it changes nothing exactly on lower-case input |
| Normalizer.StringToLowerCaseKeepsTrimmed | src/main/java/com/inversoft/passport/domain/User.java:252 | lower-casing a trimmed string keeps it trimmed |
| Normalizer.EmailFixedPoint | src/main/java/com/inversoft/passport/domain/User.java:252 | toLowerCase(trim(email)) is null or trimmed and lower case, and it leaves the email unchanged exactly when the email is already like that |
| Normalizer.NormalizeFieldIdempotent | src/main/java/com/inversoft/passport/domain/User.java:252-263 | trim twice equals trim once, and toLowerCase(trim(...)) twice equals once |
| JavaString.CompareTo | src/main/java/com/inversoft/passport/domain/UserAction.java:116 | String.compareTo: the result is 0 exactly when the strings are equal |
| JavaString.CompareToAntisymmetric | src/main/java/com/inversoft/passport/domain/UserAction.java:116 | swapping the operands negates the result |
| JavaString.CompareToTransitive | src/main/java/com/inversoft/passport/domain/UserAction.java:116 | "compares at most 0" is transitive |
| JavaString.CompareToProperPrefix | src/main/java/com/inversoft/passport/domain/UserAction.java:116 | a proper prefix compares below its extension |
| JavaString.CompareToFirstDifference | src/main/java/com/inversoft/passport/domain/UserAction.java:116 | after a common prefix, the result is the difference of the first differing characters, so the sign follows lexicographic order |
| Lookup.FindFirst | src/main/java/com/inversoft/passport/domain/User.java:215-217 | filter/findFirst: if every element before index k misses, then a hit at k is the result and a null key at k throws; if every element misses, the result is null |
| Lookup.FindFirstSound | src/main/java/com/inversoft/passport/domain/User.java:215-222 | a null result means every element missed; a found element is in the list and hits |
| Lookup.NullTargetNeverFound | src/main/java/com/inversoft/passport/domain/User.java:216 | `x.equals(null)` is false, so a null id is never found: the result is null or an exception |
| Lists.ForEach | src/main/java/com/inversoft/passport/domain/User.java:264 | forEach(normalize) keeps the list's length, and position i holds the normalized element i |
| Lists.ForEachIdempotent | src/main/java/com/inversoft/passport/domain/User.java:264 | with an idempotent element step, a second forEach changes nothing |
| Lists.ForEachFixedPoint | src/main/java/com/inversoft/passport/domain/User.java:264 | forEach changes nothing exactly when every element is already fixed |
| Lists.IfPresent | src/main/java/com/inversoft/passport/domain/User.java:253-255 | the null check: null stays null, a present value is normalized |
| Lists.IfPresentIdempotent | src/main/java/com/inversoft/passport/domain/User.java:253-255 | with an idempotent step, a second guarded call changes nothing |
| Lists.IfPresentFixedPoint | src/main/java/com/inversoft/passport/domain/User.java:253-255 | the guarded call changes nothing exactly when the value is null or already fixed |
| Sorting.Sort | src/main/java/com/inversoft/passport/domain/UserAction.java:179 | the sorted list is a permutation (same multiset) of the input |
| Sorting.SortSorted | src/main/java/com/inversoft/passport/domain/UserAction.java:179 | the result is in non-decreasing order and is a permutation of the input |
| Sorting.SortStable | src/main/java/com/inversoft/passport/domain/UserAction.java:179 | every class of equivalent elements keeps its relative order |
| Sorting.SortedUnique | src/main/java/com/inversoft/passport/domain/UserAction.java:179 | two sorted lists with the same elements in every class, in the same order, are equal |
| Sorting.StableSortUnique | src/main/java/com/inversoft/passport/domain/UserAction.java:179 | every sorted, order-keeping rearrangement of the list equals Sort's result |
| Users.NormalizeFieldsIdempotent | src/main/java/com/inversoft/passport/domain/User.java:251-265 | with idempotent nested normalizers, normalizing the eleven fields twice equals normalizing them once |
| Users.NormalizeFieldsFixedPoint | src/main/java/com/inversoft/passport/domain/User.java:251-265 | normalize() changes nothing exactly when: the email is null or trimmed and lower case; every other string is null or trimmed; the data and every registration are fixed |
| Users.User.constructor | src/main/java/com/inversoft/passport/domain/User.java:102-103 | no-argument constructor: both lists empty, every reference null, every flag false |
| Users.User.Full | src/main/java/com/inversoft/passport/domain/User.java:105-133 | stores the arguments normalize() does not touch verbatim; the email, the trimmed names, the data and the registrations (in argument order) are stored normalized; the fields it has no argument for keep their defaults; with idempotent nested normalizers the result is normalized |
| Users.User.Login | src/main/java/com/inversoft/passport/domain/User.java:193-195 | the email when it is non-null, else the username; null exactly when both are null |
| Users.User.Name | src/main/java/com/inversoft/passport/domain/User.java:198-207 | fullName if set; else firstName followed by " " and lastName when lastName is set, or firstName alone; null exactly when fullName and firstName are both null |
| Users.User.RegistrationForApplication | src/main/java/com/inversoft/passport/domain/User.java:214-223 | the registration at the smallest index whose applicationId equals the id; null when none does; throws on a null applicationId reached first; a found registration belongs to the user and has that id |
| Users.User.DataForApplication | src/main/java/com/inversoft/passport/domain/User.java:178-187 | the data of exactly the registration getRegistrationForApplication returns; null when it finds none; throws when it throws |
| Users.User.RoleNamesForApplication | src/main/java/com/inversoft/passport/domain/User.java:229-238 | the roles of exactly the registration getRegistrationForApplication returns; null when it finds none; throws when it throws |
| Users.User.Equals | src/main/java/com/inversoft/passport/domain/User.java:136-172 | identity implies equality; equal users have the same login, name, per-application lookups and secured state |
| Users.EqualsIgnoresIdAndTwoFactor | src/main/java/com/inversoft/passport/domain/User.java:144-171 | users agreeing on the 28 listed fields are equal whatever their id and twoFactorEnabled |
| Users.EqualsIsEquivalence | src/main/java/com/inversoft/passport/domain/User.java:136-172 | equals is reflexive, symmetric and transitive |
| Users.User.Normalize | src/main/java/com/inversoft/passport/domain/User.java:251-265 | the eleven fields become their normalized values (email trimmed and lower-cased, eight fields trimmed, data and every registration normalized, same length and order); no other field changes; getLogin then returns the normalized email or username; with idempotent nested normalizers the user is normalized afterwards; a normalized user is left unchanged |
| Users.User.TrimNames | src/main/java/com/inversoft/passport/domain/User.java:256-263 | each of the eight trimmed fields becomes trim of its old value and nothing else changes |
| Users.User.Secure | src/main/java/com/inversoft/passport/domain/User.java:270-276 | returns this; password, salt and twoFactorSecret become null; twoFactorEnabled is true exactly when the old secret was non-null; no other field changes, so login, name and registrations are kept |
| Users.SecureTwice | src/main/java/com/inversoft/passport/domain/User.java:273-274 | after two calls of secure(), two-factor authentication is always disabled |
| UserActions.UserAction.constructor | src/main/java/com/inversoft/passport/domain/UserAction.java:85-86 | empty option list, every other reference null, every flag false |
| UserActions.UserAction.Named | src/main/java/com/inversoft/passport/domain/UserAction.java:88-90 | the given name, an empty option list, all else at its defaults |
| UserActions.UserAction.Full | src/main/java/com/inversoft/passport/domain/UserAction.java:92-112 | stores every argument verbatim and the options in argument order |
| UserActions.UserAction.CompareTo | src/main/java/com/inversoft/passport/domain/UserAction.java:115-117 | throws exactly when either name is null; otherwise the String order of the names, 0 exactly when the names are equal |
| UserActions.CompareToAntisymmetric | src/main/java/com/inversoft/passport/domain/UserAction.java:115-117 | a.compareTo(b) and b.compareTo(a) throw together and have opposite signs |
| UserActions.CompareToTransitive | src/main/java/com/inversoft/passport/domain/UserAction.java:115-117 | the order is transitive |
| UserActions.UserAction.Equals | src/main/java/com/inversoft/passport/domain/UserAction.java:120-142 | identity implies equality; equal actions with a name compare as 0 and use the same email templates |
| UserActions.EqualsIsEquivalence | src/main/java/com/inversoft/passport/domain/UserAction.java:120-142 | equals is reflexive, symmetric and transitive |
| UserActions.UserAction.GetOption | src/main/java/com/inversoft/passport/domain/UserAction.java:145-157 | null for a null name whatever the options; throws on a null option list; otherwise the first-match result of Lookup.FindFirst on the option names (throws on a null option name reached first); changes nothing |
| UserActions.UserAction.Normalize | src/main/java/com/inversoft/passport/domain/UserAction.java:166-176 | name becomes trim of the old name; the localized names are normalized; a non-null option list keeps its length and order with every option normalized; a null list stays null; nothing else changes; with idempotent nested normalizers the action is normalized afterwards and a normalized action is left unchanged |
| UserActions.UserAction.SortOptions | src/main/java/com/inversoft/passport/domain/UserAction.java:178-180 | a null list throws and is left null; otherwise the options become the stable sort of the old options, sorted, a permutation, with each equivalence class in its old order |
| UserActions.UserAction.UsesEmailTemplate | src/main/java/com/inversoft/passport/domain/UserAction.java:186-191 | true exactly when the id is non-null and equals one of the four template ids |
| UserActions.UsesEmailTemplateNever | src/main/java/com/inversoft/passport/domain/UserAction.java:186-191 | false for a null id, and false when all four template ids are null |

## Left out

- `IntervalCount.java` is not part of this model. It holds four fields with structural equality only.
- `hashCode` (`Objects.hash`) and `toString` (a JSON library) are left out in both classes. They call library code.
- `getPreferredLanguages`, `getChildIds` and `getRegistrations` are left out. The first reads an unseen `UserData` field. The other two only return a field.
- The Jackson annotations and the `Buildable` interface are left out. They are serialization and fluent-API plumbing.
- `Normalizer.java` is not part of this model. `trim` is taken to be `String.trim`. `toLowerCase` handles only `A`–`Z`, not Java's locale-sensitive Unicode case mapping.
- The nested `normalize()` calls of `UserData`, `UserRegistration`, `LocalizedStrings` and `UserActionOption` are parameters. Their idempotence is a hypothesis of the idempotence results, not a proved fact.
- The natural order of `UserActionOption` is not part of this model. It is a parameter assumed to be a total preorder.
- `UserActions.UserAction.SortOptions`: the model does not include Java's `IllegalArgumentException` for an order that breaks the `Comparable` contract. That case is excluded by the precondition.
- `Users.User.Normalize`, `UserActions.UserAction.Normalize` and `UserActions.UserAction.SortOptions` model updating a list in place as replacing a value. Another holder of the same list or element objects (aliasing) is not modelled.
- `Users.User.Full` and `UserActions.UserAction.Full` copy the variadic argument array into the list. The model stores the sequence.
- Null elements inside the `registrations` and `options` lists are not modelled. In Java they would throw in the lookup lambda or the loop.
- `Users.User.Equals` and `UserActions.UserAction.Equals` treat the `equals` of nested objects and lists as value equality. `equals(null)` and `equals` of an object of another class, which return false in Java, are not modelled; the argument is a non-null object of the same class.
- `UserActions.UserAction.CompareTo`: a null argument object is not modelled. Arguments are non-null references.
- `JavaString.CompareTo` compares Unicode scalar values. Java compares UTF-16 code units, which differs only for characters outside the Basic Multilingual Plane.
