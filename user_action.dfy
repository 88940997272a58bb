/**
 * An action that can be taken on a user (a discipline or a reward): flags, the
 * ids of the email templates sent at each stage of a time-based action, and the
 * list of options the action offers.
 */
module UserActions {
  import opened Nullable
  import opened Opaque
  import opened Normalizer
  import opened Lists
  import opened Lookup
  import opened Sorting
  import JavaString

  /** One option of a user action. */
  datatype UserActionOption = UserActionOption(name: Option<string>, details: OptionDetails)

  /** The key getOption compares: `option.name`. */
  function OptionName(option: UserActionOption): Option<string> {
    option.name
  }

  class UserAction {
    var active: bool
    var cancelEmailTemplateId: Option<Uuid>
    var endEmailTemplateId: Option<Uuid>
    var id: Option<Uuid>
    var includeEmailInNotificationJson: bool
    var localizedNames: Option<LocalizedStrings>
    var modifyEmailTemplateId: Option<Uuid>
    var name: Option<string>
    var options: Option<seq<UserActionOption>>
    var preventLogin: bool
    var sendEndNotification: bool
    var startEmailTemplateId: Option<Uuid>
    var temporal: bool
    var userEmailingEnabled: bool
    var userNotificationsEnabled: bool

    /** normalize() would change nothing. */
    ghost predicate IsNormalized(normalizeNames: LocalizedStrings -> LocalizedStrings,
                                 normalizeOption: UserActionOption -> UserActionOption)
      reads this
    {
      && Trim(name) == name
      && IfPresent(normalizeNames, localizedNames) == localizedNames
      && (options.Some? ==> ForEach(normalizeOption, options.value) == options.value)
    }

    /** The no-argument constructor: an empty option list, every other
        reference null and every flag false. */
    constructor ()
      ensures options == Some([])
      ensures name.None? && id.None? && localizedNames.None?
      ensures startEmailTemplateId.None? && modifyEmailTemplateId.None?
      ensures cancelEmailTemplateId.None? && endEmailTemplateId.None?
      ensures !active && !includeEmailInNotificationJson && !preventLogin && !sendEndNotification
      ensures !temporal && !userEmailingEnabled && !userNotificationsEnabled
    {
      options := Some([]);
      name, id, localizedNames := None, None, None;
      startEmailTemplateId, modifyEmailTemplateId := None, None;
      cancelEmailTemplateId, endEmailTemplateId := None, None;
      active, includeEmailInNotificationJson, preventLogin, sendEndNotification := false, false, false, false;
      temporal, userEmailingEnabled, userNotificationsEnabled := false, false, false;
    }

    /** UserAction(String name): the name, an empty option list, and nothing else. */
    constructor Named(name: Option<string>)
      ensures this.name == name && options == Some([])
      ensures id.None? && localizedNames.None?
      ensures startEmailTemplateId.None? && modifyEmailTemplateId.None?
      ensures cancelEmailTemplateId.None? && endEmailTemplateId.None?
      ensures !active && !includeEmailInNotificationJson && !preventLogin && !sendEndNotification
      ensures !temporal && !userEmailingEnabled && !userNotificationsEnabled
    {
      this.name := name;
      options := Some([]);
      id, localizedNames := None, None;
      startEmailTemplateId, modifyEmailTemplateId := None, None;
      cancelEmailTemplateId, endEmailTemplateId := None, None;
      active, includeEmailInNotificationJson, preventLogin, sendEndNotification := false, false, false, false;
      temporal, userEmailingEnabled, userNotificationsEnabled := false, false, false;
    }

    /** The full constructor: every argument stored as given, the options
        appended in argument order. Nothing is normalized. */
    constructor Full(id: Option<Uuid>, name: Option<string>, active: bool,
                     localizedNames: Option<LocalizedStrings>, preventLogin: bool,
                     sendEndNotification: bool, temporal: bool, userNotificationsEnabled: bool,
                     userEmailingEnabled: bool, includeEmailInNotificationJson: bool,
                     startEmailTemplateId: Option<Uuid>, modifyEmailTemplateId: Option<Uuid>,
                     cancelEmailTemplateId: Option<Uuid>, endEmailTemplateId: Option<Uuid>,
                     options: seq<UserActionOption>)
      ensures this.id == id && this.name == name && this.active == active
      ensures this.localizedNames == localizedNames && this.preventLogin == preventLogin
      ensures this.sendEndNotification == sendEndNotification && this.temporal == temporal
      ensures this.userNotificationsEnabled == userNotificationsEnabled
      ensures this.userEmailingEnabled == userEmailingEnabled
      ensures this.includeEmailInNotificationJson == includeEmailInNotificationJson
      ensures this.startEmailTemplateId == startEmailTemplateId
      ensures this.modifyEmailTemplateId == modifyEmailTemplateId
      ensures this.cancelEmailTemplateId == cancelEmailTemplateId
      ensures this.endEmailTemplateId == endEmailTemplateId
      ensures this.options == Some(options)
    {
      this.id := id;
      this.active := active;
      this.name := name;
      this.includeEmailInNotificationJson := includeEmailInNotificationJson;
      this.localizedNames := localizedNames;
      this.preventLogin := preventLogin;
      this.sendEndNotification := sendEndNotification;
      this.temporal := temporal;
      this.userNotificationsEnabled := userNotificationsEnabled;
      this.startEmailTemplateId := startEmailTemplateId;
      this.modifyEmailTemplateId := modifyEmailTemplateId;
      this.cancelEmailTemplateId := cancelEmailTemplateId;
      this.endEmailTemplateId := endEmailTemplateId;
      this.userEmailingEnabled := userEmailingEnabled;
      this.options := Some(options);
    }

    /** compareTo: the String order of the names. A null name on either side is
        dereferenced and throws. */
    function CompareTo(o: UserAction): (r: Outcome<int>)
      reads this, o
      ensures r.Normal? <==> name.Some? && o.name.Some?
      ensures r.Normal? ==> (r.value == 0 <==> name == o.name)
    {
      if name.None? || o.name.None? then NullPointerException
      else Normal(JavaString.CompareTo(name.value, o.name.value))
    }

    /** equals: identity, or all fourteen listed fields equal pairwise (`id` is
        not among them). */
    function Equals(o: UserAction): (r: bool)
      reads this, o
      ensures this == o ==> r
      ensures r && name.Some? ==> CompareTo(o) == Normal(0)
      ensures r ==> forall t :: UsesEmailTemplate(t) == o.UsesEmailTemplate(t)
    {
      this == o ||
      (&& active == o.active
       && includeEmailInNotificationJson == o.includeEmailInNotificationJson
       && preventLogin == o.preventLogin
       && sendEndNotification == o.sendEndNotification
       && temporal == o.temporal
       && userNotificationsEnabled == o.userNotificationsEnabled
       && userEmailingEnabled == o.userEmailingEnabled
       && localizedNames == o.localizedNames
       && name == o.name
       && options == o.options
       && startEmailTemplateId == o.startEmailTemplateId
       && modifyEmailTemplateId == o.modifyEmailTemplateId
       && cancelEmailTemplateId == o.cancelEmailTemplateId
       && endEmailTemplateId == o.endEmailTemplateId)
    }

    /** getOption: null for a null name; otherwise the first option, in list
        order, whose name equals `optionName`, or null when none does. An option
        with a null name reached first, or a null list, throws. The list is only read. */
    method GetOption(optionName: Option<string>) returns (r: Outcome<Option<UserActionOption>>)
      ensures optionName.None? ==> r == Normal(None)
      ensures optionName.Some? && options.None? ==> r == NullPointerException
      ensures optionName.Some? && options.Some? ==> r == FindFirst(options.value, OptionName, optionName)
    {
      if optionName.None? {
        return Normal(None);
      }
      if options.None? {
        return NullPointerException;
      }
      var list := options.value;
      var i := 0;
      while i < |list|
        invariant 0 <= i <= |list|
        invariant FindFirst(list, OptionName, optionName) == FindFirst(list[i..], OptionName, optionName)
      {
        var key := list[i];
        if key.name.None? {
          return NullPointerException;
        }
        if key.name == optionName {
          return Normal(Some(key));
        }
        assert list[i..][1..] == list[i + 1..];
        i := i + 1;
      }
      return Normal(None);
    }

    /** normalize: trims the name and cascades to the localized names and, when
        the list is not null, to every option in place. Nothing else changes.
        Run on a normalized action it changes nothing. */
    method Normalize(normalizeNames: LocalizedStrings -> LocalizedStrings,
                     normalizeOption: UserActionOption -> UserActionOption)
      modifies this`name, this`localizedNames, this`options
      ensures name == Trim(old(name))
      ensures localizedNames == IfPresent(normalizeNames, old(localizedNames))
      ensures options.None? <==> old(options).None?
      ensures options.Some? ==> options.value == ForEach(normalizeOption, old(options).value)
      ensures Idempotent(normalizeNames) && Idempotent(normalizeOption) ==>
                IsNormalized(normalizeNames, normalizeOption)
      ensures old(IsNormalized(normalizeNames, normalizeOption)) ==>
                name == old(name) && localizedNames == old(localizedNames) && options == old(options)
    {
      NormalizeFieldIdempotent(name);
      IfPresentIdempotent(normalizeNames, localizedNames);
      if options.Some? {
        ForEachIdempotent(normalizeOption, options.value);
      }
      name := Trim(name);
      localizedNames := IfPresent(normalizeNames, localizedNames);
      if options.Some? {
        options := Some(ForEach(normalizeOption, options.value));
      }
    }

    /** sortOptions: Collections.sort on the option list with the options'
        natural order `le`: a stable sort into non-decreasing order, a
        permutation of the old list. A null list throws and nothing changes. */
    method SortOptions(le: (UserActionOption, UserActionOption) -> bool) returns (r: Outcome<Unit>)
      requires TotalPreorder(le)
      modifies this`options
      ensures old(options).None? ==> r == NullPointerException && options == old(options)
      ensures old(options).Some? ==> r == Normal(Unit) && options == Some(Sort(old(options).value, le))
      ensures options.Some? ==> Sorted(options.value, le)
      ensures options.Some? ==> multiset(options.value) == multiset(old(options).value)
      ensures options.Some? ==> forall v :: EquivalentsOf(options.value, v, le) == EquivalentsOf(old(options).value, v, le)
    {
      if options.None? {
        return NullPointerException;
      }
      var sorted := Sort(options.value, le);
      SortSorted(options.value, le);
      forall v ensures EquivalentsOf(sorted, v, le) == EquivalentsOf(options.value, v, le) {
        SortStable(options.value, v, le);
      }
      options := Some(sorted);
      return Normal(Unit);
    }

    /** usesEmailTemplate: the id is one of the four non-null template ids. */
    function UsesEmailTemplate(templateId: Option<Uuid>): (r: bool)
      reads this
      ensures r <==> templateId.Some? &&
                     templateId in [startEmailTemplateId, modifyEmailTemplateId,
                                    cancelEmailTemplateId, endEmailTemplateId]
    {
      || (startEmailTemplateId.Some? && startEmailTemplateId == templateId)
      || (modifyEmailTemplateId.Some? && modifyEmailTemplateId == templateId)
      || (cancelEmailTemplateId.Some? && cancelEmailTemplateId == templateId)
      || (endEmailTemplateId.Some? && endEmailTemplateId == templateId)
    }
  }

  /** a.compareTo(b) and b.compareTo(a) have opposite signs; both throw together. */
  lemma CompareToAntisymmetric(a: UserAction, b: UserAction)
    ensures a.CompareTo(b).Normal? <==> b.CompareTo(a).Normal?
    ensures a.CompareTo(b).Normal? ==> a.CompareTo(b).value == -b.CompareTo(a).value
  {
    if a.name.Some? && b.name.Some? {
      JavaString.CompareToAntisymmetric(a.name.value, b.name.value);
    }
  }

  /** compareTo orders actions transitively. */
  lemma CompareToTransitive(a: UserAction, b: UserAction, c: UserAction)
    requires a.CompareTo(b).Normal? && b.CompareTo(c).Normal?
    requires a.CompareTo(b).value <= 0 && b.CompareTo(c).value <= 0
    ensures a.CompareTo(c).Normal? && a.CompareTo(c).value <= 0
  {
    JavaString.CompareToTransitive(a.name.value, b.name.value, c.name.value);
  }

  /** equals is reflexive, symmetric and transitive. */
  lemma EqualsIsEquivalence(a: UserAction, b: UserAction, c: UserAction)
    ensures a.Equals(a)
    ensures a.Equals(b) ==> b.Equals(a)
    ensures a.Equals(b) && b.Equals(c) ==> a.Equals(c)
  {
  }

  /** With no template ids set, and for a null id, usesEmailTemplate is false. */
  lemma UsesEmailTemplateNever(action: UserAction, templateId: Option<Uuid>)
    ensures templateId.None? ==> !action.UsesEmailTemplate(templateId)
    ensures action.startEmailTemplateId.None? && action.modifyEmailTemplateId.None? &&
            action.cancelEmailTemplateId.None? && action.endEmailTemplateId.None? ==>
              !action.UsesEmailTemplate(templateId)
  {
  }
}
