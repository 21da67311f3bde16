/**
 * The settings page: the profile fields and six permission switches the
 * form edits, the merge of a stored copy over the current settings when
 * the page mounts, and saving the settings under one storage key.
 */
module Settings {
  import opened Common
  import Db

  /** The storage key the settings are kept under. */
  const StorageKey: string := "hm_admin_settings"

  datatype PermissionKey =
    | ApproveRefunds
    | EditHostels
    | InviteVendors
    | ManageEmployees
    | ViewFinancials
    | SendMessages

  datatype Permissions = Permissions(
    approveRefunds: bool,
    editHostels: bool,
    inviteVendors: bool,
    manageEmployees: bool,
    viewFinancials: bool,
    sendMessages: bool)

  /** `permissions[key]`. */
  function Get(p: Permissions, key: PermissionKey): bool
  {
    match key
    case ApproveRefunds => p.approveRefunds
    case EditHostels => p.editHostels
    case InviteVendors => p.inviteVendors
    case ManageEmployees => p.manageEmployees
    case ViewFinancials => p.viewFinancials
    case SendMessages => p.sendMessages
  }

  /** `{ ...p, [key]: b }`. */
  function Set(p: Permissions, key: PermissionKey, b: bool): (q: Permissions)
    ensures Get(q, key) == b
    ensures forall k :: k != key ==> Get(q, k) == Get(p, k)
  {
    match key
    case ApproveRefunds => p.(approveRefunds := b)
    case EditHostels => p.(editHostels := b)
    case InviteVendors => p.(inviteVendors := b)
    case ManageEmployees => p.(manageEmployees := b)
    case ViewFinancials => p.(viewFinancials := b)
    case SendMessages => p.(sendMessages := b)
  }

  /** Two permission sets are equal when every switch agrees. */
  lemma PermissionsExtensional(p: Permissions, q: Permissions)
    requires forall k :: Get(p, k) == Get(q, k)
    ensures p == q
  {
    assert Get(p, ApproveRefunds) == Get(q, ApproveRefunds);
    assert Get(p, EditHostels) == Get(q, EditHostels);
    assert Get(p, InviteVendors) == Get(q, InviteVendors);
    assert Get(p, ManageEmployees) == Get(q, ManageEmployees);
    assert Get(p, ViewFinancials) == Get(q, ViewFinancials);
    assert Get(p, SendMessages) == Get(q, SendMessages);
  }

  datatype SettingsData = SettingsData(name: string, email: string, password: string, permissions: Permissions)

  /** The state the form starts with. */
  const Defaults: SettingsData :=
    SettingsData("Admin User", "admin@hostel.com", "", Permissions(true, true, true, true, true, true))

  /** The `togglePermission(key)` updater. */
  function Toggle(s: SettingsData, key: PermissionKey): (r: SettingsData)
    ensures Get(r.permissions, key) == !Get(s.permissions, key)
    ensures forall k :: k != key ==> Get(r.permissions, k) == Get(s.permissions, k)
    ensures r.name == s.name && r.email == s.email && r.password == s.password
  {
    s.(permissions := Set(s.permissions, key, !Get(s.permissions, key)))
  }

  /** Toggling the same switch twice gives back the settings it started from. */
  lemma ToggleTwice(s: SettingsData, key: PermissionKey)
    ensures Toggle(Toggle(s, key), key) == s
  {
    PermissionsExtensional(Toggle(Toggle(s, key), key).permissions, s.permissions);
  }

  /** Toggling two switches gives the same settings in either order. */
  lemma TogglesCommute(s: SettingsData, a: PermissionKey, b: PermissionKey)
    ensures Toggle(Toggle(s, a), b) == Toggle(Toggle(s, b), a)
  {
    var l, r := Toggle(Toggle(s, a), b).permissions, Toggle(Toggle(s, b), a).permissions;
    forall k ensures Get(l, k) == Get(r, k) {
    }
    PermissionsExtensional(l, r);
  }

  // ---------------------------------------------------------------- storage

  /**
   * A parsed stored object: the settings properties it carries. A stored
   * `permissions` object is taken whole.
   */
  datatype StoredSettings = StoredSettings(
    name: Option<string>,
    email: Option<string>,
    password: Option<string>,
    permissions: Option<Permissions>)

  /** What reading the key gives: nothing (or an empty string), text that does not parse, or an object. */
  datatype SettingsSlot = NoValue | Unparsable | Parsed(data: StoredSettings)

  /** Everything the form holds, as `JSON.stringify` writes it. */
  function Stored(s: SettingsData): StoredSettings
  {
    StoredSettings(Some(s.name), Some(s.email), Some(s.password), Some(s.permissions))
  }

  /** `{ ...prev, ...data }`: each property the stored object has replaces the current one. */
  function Merge(prev: SettingsData, data: StoredSettings): (r: SettingsData)
    ensures r.name == data.name.GetOr(prev.name)
    ensures r.email == data.email.GetOr(prev.email)
    ensures r.password == data.password.GetOr(prev.password)
    ensures r.permissions == data.permissions.GetOr(prev.permissions)
  {
    SettingsData(data.name.GetOr(prev.name), data.email.GetOr(prev.email),
                 data.password.GetOr(prev.password), data.permissions.GetOr(prev.permissions))
  }

  /** The settings after the mount effect has read the slot. */
  function Loaded(prev: SettingsData, slot: SettingsSlot): SettingsData
  {
    match slot
    case Parsed(data) => Merge(prev, data)
    case _ => prev
  }

  function Lookup(storage: map<string, SettingsSlot>, key: string): SettingsSlot
  {
    if key in storage then storage[key] else NoValue
  }

  /** With nothing stored, or with text that does not parse, the form keeps its defaults. */
  lemma NothingStoredKeepsDefaults(storage: map<string, SettingsSlot>)
    requires Lookup(storage, StorageKey) == NoValue || Lookup(storage, StorageKey) == Unparsable
    ensures Loaded(Defaults, Lookup(storage, StorageKey)) == Defaults
    ensures Loaded(Defaults, Lookup(storage, StorageKey)).permissions == Permissions(true, true, true, true, true, true)
  {
  }

  /** Loading what was saved restores exactly the saved settings, whatever the form held before. */
  lemma SaveThenLoad(saved: SettingsData, prev: SettingsData)
    ensures Loaded(prev, Parsed(Stored(saved))) == saved
  {
  }

  /** Merging the same stored object twice changes nothing the first merge did not. */
  lemma MergeIdempotent(prev: SettingsData, data: StoredSettings)
    ensures Merge(Merge(prev, data), data) == Merge(prev, data)
  {
  }

  /**
   * The settings key lies in the store's `hm_admin_` namespace (it is the
   * slot an entity called "settings" would use) but is not the hostels'
   * slot, so saving settings never overwrites stored hostels.
   */
  lemma SettingsKeyBesideStoreSlots()
    ensures StorageKey == Db.SlotName("settings")
    ensures forall entityKey :: entityKey != "settings" ==> Db.SlotName(entityKey) != StorageKey
  {
    forall entityKey | entityKey != "settings"
      ensures Db.SlotName(entityKey) != StorageKey
    {
      if Db.SlotName(entityKey) == StorageKey {
        Db.SlotNameInjective(entityKey, "settings");
      }
    }
  }

  const SavedMessage: string := "Settings saved successfully!"
  const SaveFailedMessage: string := "Failed to save settings. Please try again."

  /** The mounted settings page with the browser storage it reads and writes. */
  class SettingsForm {
    var settings: SettingsData
    var toast: ToastState
    /** The browser storage, key by key. */
    var storage: map<string, SettingsSlot>
    /** Whether `setItem` succeeds; when it does not, it throws. */
    const writable: bool

    constructor (storage: map<string, SettingsSlot>, writable: bool)
      ensures settings == Defaults && toast == ClosedToast
      ensures this.storage == storage && this.writable == writable
    {
      settings := Defaults;
      toast := ClosedToast;
      this.storage := storage;
      this.writable := writable;
    }

    /** The mount effect: merge whatever parses under the key over the current settings. */
    method LoadOnMount()
      modifies this`settings
      ensures settings == Loaded(old(settings), Lookup(storage, StorageKey))
    {
      var slot := if StorageKey in storage then storage[StorageKey] else NoValue;
      match slot {
        case Parsed(data) =>
          settings := Merge(settings, data);
        case NoValue =>
        case Unparsable =>
      }
    }

    /** The profile inputs: `setSettings({ ...settings, name: value })` and its two siblings. */
    method SetName(value: string)
      modifies this`settings
      ensures settings == old(settings).(name := value)
    {
      settings := settings.(name := value);
    }

    method SetEmail(value: string)
      modifies this`settings
      ensures settings == old(settings).(email := value)
    {
      settings := settings.(email := value);
    }

    method SetPassword(value: string)
      modifies this`settings
      ensures settings == old(settings).(password := value)
    {
      settings := settings.(password := value);
    }

    method TogglePermission(key: PermissionKey)
      modifies this`settings
      ensures settings == Toggle(old(settings), key)
    {
      settings := settings.(permissions := Set(settings.permissions, key, !Get(settings.permissions, key)));
    }

    /**
     * `handleSave`: write the settings under the key and report success,
     * or, when writing throws, leave storage alone and report the failure.
     * Either way the settings themselves are unchanged.
     */
    method HandleSave()
      modifies this`storage, this`toast
      ensures writable ==> storage == old(storage)[StorageKey := Parsed(Stored(settings))]
      ensures writable ==> toast == ToastState(true, Success, SavedMessage)
      ensures !writable ==> storage == old(storage)
      ensures !writable ==> toast == ToastState(true, Error, SaveFailedMessage)
      ensures Loaded(Defaults, Lookup(storage, StorageKey))
           == if writable then settings else Loaded(Defaults, Lookup(old(storage), StorageKey))
    {
      if writable {
        storage := storage[StorageKey := Parsed(Stored(settings))];
        toast := ToastState(true, Success, SavedMessage);
      } else {
        toast := ToastState(true, Error, SaveFailedMessage);
      }
    }
  }
}
