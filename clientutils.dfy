/** The client's display helpers: relative times, truncation and the icon
    names shown next to technologies and files. */
module ClientUtils {
  import opened Wrappers
  import opened Strings

  // ---------------------------------------------------------------------
  // timeAgo

  const SecondsPerYear: int := 31536000
  const SecondsPerMonth: int := 2592000
  const SecondsPerDay: int := 86400
  const SecondsPerHour: int := 3600
  const SecondsPerMinute: int := 60

  /** "<n> <unit>s ago", or "1 <unit> ago" for a count of one. */
  function Ago(n: nat, unit: string): (r: string)
  {
    if n == 1 then "1 " + unit + " ago" else NatToString(n) + " " + unit + "s ago"
  }

  /** The phrase names its count: two different counts of the same unit
      never read alike, and the plural is used exactly when the count is
      not one. */
  lemma AgoInjective(n1: nat, n2: nat, unit: string)
    requires Ago(n1, unit) == Ago(n2, unit)
    ensures n1 == n2
  {
    var t1 := if n1 == 1 then " " + unit + " ago" else " " + unit + "s ago";
    var t2 := if n2 == 1 then " " + unit + " ago" else " " + unit + "s ago";
    assert NatToString(1) == "1";
    assert Ago(n1, unit) == NatToString(n1) + t1;
    assert Ago(n2, unit) == NatToString(n2) + t2;
    CountThenSpace(n1, t1, n2, t2);
  }

  /** `timeAgo`: `date` is the instant in milliseconds (None for the empty
      or missing argument), `now` the clock in milliseconds. Both floors of
      the source are divisions by a positive number, where Dafny's `/`
      floors too. */
  function TimeAgo(date: Option<int>, now: int): (r: string)
    ensures date.None? <==> r == ""
    ensures date.Some? && now - date.value < 60000 ==> r == "just now"
  {
    match date
    case None => ""
    case Some(d) =>
      var seconds := (now - d) / 1000;
      if seconds / SecondsPerYear >= 1 then Ago(seconds / SecondsPerYear, "year")
      else if seconds / SecondsPerMonth >= 1 then Ago(seconds / SecondsPerMonth, "month")
      else if seconds / SecondsPerDay >= 1 then Ago(seconds / SecondsPerDay, "day")
      else if seconds / SecondsPerHour >= 1 then Ago(seconds / SecondsPerHour, "hour")
      else if seconds / SecondsPerMinute >= 1 then Ago(seconds / SecondsPerMinute, "minute")
      else "just now"
  }

  /** The phrase by elapsed whole seconds: under a minute (or in the
      future) is "just now", otherwise the largest unit that fits, with a
      count that stays below the next unit (at most 59 minutes, 23 hours,
      29 days and 12 months, since a 30-day month does not divide a
      365-day year). */
  lemma TimeAgoSpec(d: int, now: int)
    ensures var s, r := (now - d) / 1000, TimeAgo(Some(d), now);
      && (s < 60 ==> r == "just now")
      && (60 <= s < 3600 ==> 1 <= s / 60 <= 59 && r == Ago(s / 60, "minute"))
      && (3600 <= s < 86400 ==> 1 <= s / 3600 <= 23 && r == Ago(s / 3600, "hour"))
      && (86400 <= s < 2592000 ==> 1 <= s / 86400 <= 29 && r == Ago(s / 86400, "day"))
      && (2592000 <= s < 31536000 ==> 1 <= s / 2592000 <= 12 && r == Ago(s / 2592000, "month"))
      && (31536000 <= s ==> 1 <= s / 31536000 && r == Ago(s / 31536000, "year"))
  {
    var s := (now - d) / 1000;
    if s < 60 {
      if s >= 0 {
        assert s / SecondsPerMinute == 0;
      }
    } else if s < 3600 {
      assert s / SecondsPerHour == 0;
    } else if s < 86400 {
      assert s / SecondsPerDay == 0;
    } else if s < 2592000 {
      assert s / SecondsPerMonth == 0;
    } else if s < 31536000 {
      assert s / SecondsPerYear == 0;
    }
  }

  /** A date in the future reads "just now". */
  lemma FutureIsJustNow(d: int, now: int)
    requires now <= d
    ensures TimeAgo(Some(d), now) == "just now"
  {
    var s := (now - d) / 1000;
    assert s <= 0;
    assert s / SecondsPerMinute <= 0 && s / SecondsPerHour <= 0 && s / SecondsPerDay <= 0;
    assert s / SecondsPerMonth <= 0 && s / SecondsPerYear <= 0;
  }

  // ---------------------------------------------------------------------
  // truncate

  function Max(a: int, b: int): int { if a >= b then a else b }

  /** `truncate`: the empty string stays empty; a string no longer than
      `length` is kept; a longer one is cut to its first `length`
      characters (none when `length` is negative, as `substring` clamps)
      and "..." is appended. */
  function Truncate(str: string, length: int): (r: string)
    ensures str == "" ==> r == ""
    ensures |str| <= length ==> r == str
    ensures str != "" && |str| > length ==>
      && |r| == Max(length, 0) + 3
      && r[..Max(length, 0)] == str[..Max(length, 0)]
      && r[Max(length, 0)..] == "..."
  {
    if str == "" then ""
    else if |str| > length then str[..Max(length, 0)] + "..."
    else str
  }

  /** Truncation leaves a string as it is exactly when it already fits, or
      when it is its own first `length` characters followed by "..." (so a
      second truncation of a truncated string changes nothing). */
  lemma TruncateFixedPoint(str: string, length: int)
    requires str != ""
    ensures Truncate(str, length) == str <==>
      |str| <= length || (|str| == Max(length, 0) + 3 && str[Max(length, 0)..] == "...")
  {
    var n := Max(length, 0);
    if |str| > length && |str| == n + 3 && str[n..] == "..." {
      assert str == str[..n] + str[n..];
    }
  }

  lemma TruncateTwice(str: string, length: int)
    ensures Truncate(Truncate(str, length), length) == Truncate(str, length)
  {
    var r := Truncate(str, length);
    if str != "" && |str| > length {
      TruncateFixedPoint(r, length);
    }
  }

  // ---------------------------------------------------------------------
  // Icon tables

  const TechIcons: map<string, string> := map[
    "react" := "react", "vue" := "vuejs", "angular" := "angular", "node" := "nodejs",
    "express" := "express", "mongodb" := "mongodb", "postgres" := "postgresql",
    "python" := "python", "django" := "django", "flask" := "flask",
    "javascript" := "javascript", "typescript" := "typescript", "html" := "html5",
    "css" := "css3", "sass" := "sass", "tailwind" := "tailwindcss"]

  const FileIcons: map<string, string> := map[
    "js" := "javascript", "jsx" := "react", "ts" := "typescript", "tsx" := "react",
    "py" := "python", "html" := "html5", "css" := "css3", "scss" := "sass",
    "json" := "json", "md" := "markdown", "php" := "php", "rb" := "ruby",
    "go" := "go", "java" := "java", "c" := "c", "cpp" := "cplusplus",
    "cs" := "csharp", "swift" := "swift", "kt" := "kotlin", "rs" := "rust"]

  /** No icon name of either table is empty, so a listed key is never
      passed over by the falsy fallback. */
  lemma IconNamesNonEmpty()
    ensures forall k :: k in TechIcons ==> TechIcons[k] != ""
    ensures forall k :: k in FileIcons ==> FileIcons[k] != ""
  {
    forall k | k in TechIcons ensures TechIcons[k] != "" {
      assert |TechIcons[k]| >= 3;
    }
    forall k | k in FileIcons ensures FileIcons[k] != "" {
      assert |FileIcons[k]| >= 1;
    }
  }

  /** `table[key] || fallback` on an object's own keys. */
  function IconOr(table: map<string, string>, key: string, fallback: string): (r: string)
    ensures key in table && table[key] != "" ==> r == table[key]
    ensures !(key in table && table[key] != "") ==> r == fallback
  {
    if key in table && table[key] != "" then table[key] else fallback
  }

  // ---------------------------------------------------------------------
  // getTechnologyIcon

  /** `getTechnologyIcon`, looking only at the table's own keys: the icon of
      the lower-cased name, or "code". */
  function GetTechnologyIcon(tech: string): (r: string)
    ensures r in TechIcons.Values || r == "code"
    ensures r != "code" <==> ToLower(tech) in TechIcons && TechIcons[ToLower(tech)] != "code"
  {
    IconNamesNonEmpty();
    IconOr(TechIcons, ToLower(tech), "code")
  }

  /** The lookup ignores letter case. */
  lemma TechnologyIconIgnoresCase(tech: string)
    ensures GetTechnologyIcon(tech) == GetTechnologyIcon(ToLower(tech))
    ensures ToLower(tech) in TechIcons ==> GetTechnologyIcon(tech) == TechIcons[ToLower(tech)]
  {
    ToLowerIsLowerCase(tech);
    IconNamesNonEmpty();
  }

  // ---------------------------------------------------------------------
  // getFileExtensionIcon

  /** `name.split(".").pop()`: the text after the last dot, or the whole
      name when it has none. */
  function LastPiece(name: string): (r: string)
    ensures |r| <= |name| && r == name[|name| - |r|..]
    ensures forall i :: 0 <= i < |r| ==> r[i] != '.'
    ensures |r| < |name| ==> name[|name| - |r| - 1] == '.'
  {
    if |name| == 0 || name[|name| - 1] == '.' then ""
    else LastPiece(name[..|name| - 1]) + [name[|name| - 1]]
  }

  /** The last piece of "<stem>.<ext>" is `ext` when `ext` has no dot. */
  lemma {:induction false} LastPieceOfDotted(stem: string, ext: string)
    requires forall i :: 0 <= i < |ext| ==> ext[i] != '.'
    ensures LastPiece(stem + "." + ext) == ext
    decreases |ext|
  {
    var name := stem + "." + ext;
    if |ext| > 0 {
      var shorter := ext[..|ext| - 1];
      assert name[..|name| - 1] == stem + "." + shorter;
      LastPieceOfDotted(stem, shorter);
      assert ext == shorter + [ext[|ext| - 1]];
    }
  }

  /** `getFileExtensionIcon`, looking only at the table's own keys: "file"
      for an empty name or an empty extension, else the icon of the
      lower-cased extension, or "file". */
  function GetFileExtensionIcon(filename: string): (r: string)
    ensures r in FileIcons.Values || r == "file"
    ensures filename == "" ==> r == "file"
    ensures filename != "" && ToLower(LastPiece(filename)) in FileIcons ==>
      r == FileIcons[ToLower(LastPiece(filename))]
    ensures filename != "" && ToLower(LastPiece(filename)) !in FileIcons ==> r == "file"
  {
    IconNamesNonEmpty();
    if filename == "" then "file"
    else
      var ext := ToLower(LastPiece(filename));
      if ext != "" then IconOr(FileIcons, ext, "file") else "file"
  }

  /** A name ending in ".<ext>" gets the icon of `ext` in any letter
      case, or "file" when the extension is not listed. */
  lemma ExtensionIconOf(stem: string, ext: string)
    requires forall i :: 0 <= i < |ext| ==> ext[i] != '.'
    ensures ToLower(ext) in FileIcons ==> GetFileExtensionIcon(stem + "." + ext) == FileIcons[ToLower(ext)]
    ensures ToLower(ext) !in FileIcons ==> GetFileExtensionIcon(stem + "." + ext) == "file"
  {
    LastPieceOfDotted(stem, ext);
    assert (stem + "." + ext) != "" by {
      assert |stem + "." + ext| > 0;
    }
  }

  // ---------------------------------------------------------------------
  // The lookups as written: property access on an object literal

  /** What a property read can give back: a string stored in the table, a
      member inherited from `Object.prototype` (a function, or the
      prototype object for "__proto__"), or `undefined`. */
  datatype JsValue = JsString(s: string) | JsInherited(name: string) | JsUndefined

  predicate Truthy(v: JsValue) {
    match v
    case JsString(s) => s != ""
    case JsInherited(_) => true
    case JsUndefined => false
  }

  /** The names every object literal inherits from `Object.prototype`. */
  const ObjectPrototypeKeys: set<string> := {
    "constructor", "__proto__", "toString", "toLocaleString", "valueOf",
    "hasOwnProperty", "isPrototypeOf", "propertyIsEnumerable",
    "__defineGetter__", "__defineSetter__", "__lookupGetter__", "__lookupSetter__"}

  /** `table[key]` on an object literal. */
  function PropertyRead(table: map<string, string>, key: string): (v: JsValue)
    ensures key in table ==> v == JsString(table[key])
    ensures key !in table && key in ObjectPrototypeKeys ==> v == JsInherited(key)
    ensures key !in table && key !in ObjectPrototypeKeys ==> v == JsUndefined
  {
    if key in table then JsString(table[key])
    else if key in ObjectPrototypeKeys then JsInherited(key)
    else JsUndefined
  }

  /** `getTechnologyIcon` as written: `techIcons[tech.toLowerCase()] || "code"`. */
  function GetTechnologyIconAsWritten(tech: string): JsValue
  {
    var v := PropertyRead(TechIcons, ToLower(tech));
    if Truthy(v) then v else JsString("code")
  }

  /** `getFileExtensionIcon` as written: `ext && fileIcons[ext] ? fileIcons[ext] : "file"`. */
  function GetFileExtensionIconAsWritten(filename: string): JsValue
  {
    if filename == "" then JsString("file")
    else
      var ext := ToLower(LastPiece(filename));
      if ext != "" && Truthy(PropertyRead(FileIcons, ext)) then PropertyRead(FileIcons, ext)
      else JsString("file")
  }

  /** A technology named "Constructor" gets the inherited `Object`
      constructor function instead of an icon name. */
  lemma TechnologyIconInheritedKey()
    ensures GetTechnologyIconAsWritten("Constructor") == JsInherited("constructor")
  {
    assert ToLower("Constructor") == "constructor";
    assert "constructor" !in TechIcons by {
      assert |"constructor"| == 11;
    }
  }

  /** A file named "x.constructor" gets the inherited `Object` constructor
      function instead of an icon name. */
  lemma FileIconInheritedKey()
    ensures GetFileExtensionIconAsWritten("x.constructor") == JsInherited("constructor")
  {
    ConstructorExtension();
    ConstructorNotListed();
  }

  /** The extension of "x.constructor" is "constructor", already lower-case. */
  lemma ConstructorExtension()
    ensures ToLower(LastPiece("x.constructor")) == "constructor"
  {
    var ext := "constructor";
    NoDot(ext);
    LastPieceOfDotted("x", ext);
    assert "x" + "." + ext == "x.constructor";
    ConstructorLowerCase();
  }

  lemma NoDot(ext: string)
    requires ext == "constructor"
    ensures forall i :: 0 <= i < |ext| ==> ext[i] != '.'
  {
  }

  lemma ConstructorLowerCase()
    ensures ToLower("constructor") == "constructor"
  {
    LowerCaseFixed("constructor");
  }

  lemma ConstructorNotListed()
    ensures "constructor" !in FileIcons && "constructor" in ObjectPrototypeKeys
  {
    assert |"constructor"| == 11;
  }

  /** Away from the inherited names the written lookups and the own-key
      lookups agree, so the own-key versions keep the intended behaviour
      and always answer with an icon name. */
  lemma OwnKeyLookupsAgree(tech: string, filename: string)
    ensures ToLower(tech) !in ObjectPrototypeKeys ==>
      GetTechnologyIconAsWritten(tech) == JsString(GetTechnologyIcon(tech))
    ensures ToLower(LastPiece(filename)) !in ObjectPrototypeKeys ==>
      GetFileExtensionIconAsWritten(filename) == JsString(GetFileExtensionIcon(filename))
  {
    IconNamesNonEmpty();
  }
}
