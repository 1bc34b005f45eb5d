// The icon lookup (src/lib/iconMap.tsx): 27 names mapped to icons, looked
// up by the lower-cased name, with the alert icon for anything unknown.
module IconMap {
  import opened Wrappers
  import opened Text

  datatype Icon =
    | Settings | Edit | Shield | Car | MessageCircle | Phone | ArrowUp | Star | Clock | Users
    | MapPin | Mail | Search | Menu | X | ChevronRight | ChevronLeft | ChevronUp | ChevronDown
    | Check | AlertCircle | Tag | List | Grid3X3 | Info | Play | Pause

  /** The keys in their declaration order, which is the order
      Object.keys reports them in. */
  const IconNames: seq<string> := [
    "settings", "edit", "shield", "car", "message-circle", "phone", "arrow-up", "star", "clock",
    "users", "map-pin", "mail", "search", "menu", "x", "chevron-right", "chevron-left",
    "chevron-up", "chevron-down", "check", "alert-circle", "tag", "list", "grid", "info",
    "play", "pause"]

  /** The map's own entry for a key. */
  function OwnEntry(key: string): Option<Icon> {
    match key
    case "settings" => Some(Settings)
    case "edit" => Some(Edit)
    case "shield" => Some(Shield)
    case "car" => Some(Car)
    case "message-circle" => Some(MessageCircle)
    case "phone" => Some(Phone)
    case "arrow-up" => Some(ArrowUp)
    case "star" => Some(Star)
    case "clock" => Some(Clock)
    case "users" => Some(Users)
    case "map-pin" => Some(MapPin)
    case "mail" => Some(Mail)
    case "search" => Some(Search)
    case "menu" => Some(Menu)
    case "x" => Some(X)
    case "chevron-right" => Some(ChevronRight)
    case "chevron-left" => Some(ChevronLeft)
    case "chevron-up" => Some(ChevronUp)
    case "chevron-down" => Some(ChevronDown)
    case "check" => Some(Check)
    case "alert-circle" => Some(AlertCircle)
    case "tag" => Some(Tag)
    case "list" => Some(List)
    case "grid" => Some(Grid3X3)
    case "info" => Some(Info)
    case "play" => Some(Play)
    case "pause" => Some(Pause)
    case _ => None
  }

  /** A rendered icon with its class name and size. */
  datatype Rendered = Rendered(icon: Icon, className: string, size: int)

  /** The defaults of the optional props: className '' and size 24. */
  function WithDefaults(className: Option<string>, size: Option<int>): (r: (string, int))
    ensures r.0 == (if className.Some? then className.value else "")
    ensures r.1 == (if size.Some? then size.value else 24)
  {
    (if className.Some? then className.value else "", if size.Some? then size.value else 24)
  }

  /** DynamicIcon, as the lookup is meant to work: the own entry of the
      lower-cased name, or the alert icon. */
  function DynamicIcon(name: string, className: Option<string>, size: Option<int>): (r: Rendered)
    ensures OwnEntry(Lower(name)).Some? ==> r.icon == OwnEntry(Lower(name)).value
    ensures OwnEntry(Lower(name)).None? ==> r.icon == AlertCircle
    ensures (r.className, r.size) == WithDefaults(className, size)
  {
    var props := WithDefaults(className, size);
    var entry := OwnEntry(Lower(name));
    Rendered(if entry.Some? then entry.value else AlertCircle, props.0, props.1)
  }

  /** hasIcon: the lower-cased name is one of the map's own keys. */
  predicate HasIcon(name: string) {
    Lower(name) in IconNames
  }

  /** getAvailableIconNames */
  function AvailableIconNames(): (r: seq<string>)
    ensures |r| == 27
  {
    IconNames
  }

  /** The map's keys are exactly the names: a key has an own entry iff it
      is listed. */
  lemma KeysAreNames(key: string)
    ensures OwnEntry(key).Some? <==> key in IconNames
  {
  }

  /** hasIcon holds exactly when DynamicIcon draws a mapped icon and not
      the fallback; a name that differs only in letter case draws the same
      icon. */
  lemma HasIconIffMapped(name: string, className: Option<string>, size: Option<int>)
    ensures HasIcon(name) <==> OwnEntry(Lower(name)).Some?
    ensures !HasIcon(name) ==> DynamicIcon(name, className, size).icon == AlertCircle
    ensures DynamicIcon(Lower(name), className, size) == DynamicIcon(name, className, size)
  {
    KeysAreNames(Lower(name));
    LowerIdempotent(name);
  }

  /** Every listed name has an icon. */
  lemma AvailableNamesHaveIcons(i: nat)
    requires i < |AvailableIconNames()|
    ensures HasIcon(AvailableIconNames()[i])
  {
    NamesHaveNoCapitals(i);
    LowerOfNoCapitals(IconNames[i]);
  }

  lemma NamesHaveNoCapitals(i: nat)
    requires i < |IconNames|
    ensures forall k :: 0 <= k < |IconNames[i]| ==> !('A' <= IconNames[i][k] <= 'Z')
  {
  }

  // ---- the lookup as written ------------------------------------------------

  /** The property names every plain object inherits from Object.prototype;
      an index expression on the map finds these too. */
  const InheritedKeys: seq<string> := [
    "constructor", "hasOwnProperty", "isPrototypeOf", "propertyIsEnumerable",
    "toLocaleString", "toString", "valueOf", "__proto__", "__defineGetter__",
    "__defineSetter__", "__lookupGetter__", "__lookupSetter__"]

  /** What `iconMap[key]` yields: an own entry, an inherited member, or
      undefined. */
  datatype Found = OwnIcon(icon: Icon) | InheritedMember(key: string) | Undefined

  function IndexAsWritten(key: string): (r: Found)
    ensures r.OwnIcon? <==> key in IconNames
  {
    KeysAreNames(key);
    var own := OwnEntry(key);
    if own.Some? then OwnIcon(own.value)
    else if key in InheritedKeys then InheritedMember(key)
    else Undefined
  }

  /** What DynamicIcon renders as written: the fallback only when the index
      yields undefined; an inherited member (a function or an object) is
      rendered as if it were an icon component. */
  datatype RenderedAsWritten = Icon(icon: Icon) | NotAnIcon(key: string)

  function DynamicIconAsWritten(name: string): (r: RenderedAsWritten)
    ensures IndexAsWritten(Lower(name)).Undefined? ==> r == Icon(AlertCircle)
    ensures IndexAsWritten(Lower(name)).OwnIcon? ==> r == Icon(IndexAsWritten(Lower(name)).icon)
    ensures IndexAsWritten(Lower(name)).InheritedMember? ==> r == NotAnIcon(Lower(name))
  {
    match IndexAsWritten(Lower(name))
    case OwnIcon(icon) => Icon(icon)
    case InheritedMember(key) => NotAnIcon(key)
    case Undefined => Icon(AlertCircle)
  }

  /** For "constructor" (and "Constructor"), hasIcon says there is no icon,
      yet the lookup as written does not fall back to the alert icon: it
      hands Object to the renderer instead. */
  lemma InheritedKeyBypassesFallback()
    ensures !HasIcon("constructor") && DynamicIconAsWritten("constructor") == NotAnIcon("constructor")
    ensures DynamicIconAsWritten("Constructor") == NotAnIcon("constructor")
  {
    var n := "constructor";
    assert Lower(n) == n;
    assert Lower("Constructor") == n;
    KeysAreNames(n);
    assert n in InheritedKeys;
  }

  /** The two lookups agree on every name that is neither a key nor an
      inherited member, and on every key. */
  lemma AsWrittenAgreesElsewhere(name: string)
    requires Lower(name) !in InheritedKeys
    ensures DynamicIconAsWritten(name) == Icon(DynamicIcon(name, None, None).icon)
  {
  }
}
