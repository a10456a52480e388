/** The client-side gate (`lockin.js`): the configuration read from the
    script tag's data attributes, the password hash, the session flag that
    skips the modal, and the attempt counter of the submit handler. The DOM
    is reduced to what these read and write: the script tags, the error
    text, whether the input is disabled and whether the modal is open.
    `sessionStorage` is a string map; JSON is the pair of parameters
    `encode`/`decode`. */
module Lockin {
  import opened Options
  import Text
  import opened Numbers

  // ---------------------------------------------------------------- hash

  /** The UTF-16 code units of one character, as `charCodeAt` reads them. */
  function Units(c: char): (u: seq<int>)
    ensures 1 <= |u| <= 2
    ensures forall i :: 0 <= i < |u| ==> 0 <= u[i] < 0x1_0000
    ensures c as int < 0x1_0000 ==> u == [c as int]
  {
    var v := c as int;
    if v < 0x1_0000 then [v]
    else [0xD800 + (v - 0x1_0000) / 0x400, 0xDC00 + (v - 0x1_0000) % 0x400]
  }

  /** The UTF-16 code units of a string. */
  function Utf16(s: string): (u: seq<int>)
    ensures |s| <= |u| <= 2 * |s|
    ensures forall i :: 0 <= i < |u| ==> 0 <= u[i] < 0x1_0000
  {
    if s == [] then [] else Units(s[0]) + Utf16(s[1..])
  }

  /** The hash after the units `u`: h = 0, then h := int32(31 h + unit). */
  function HashCode(u: seq<int>): (h: int)
    ensures -TWO31 <= h < TWO31
  {
    if u == [] then 0 else Int32(31 * HashCode(u[..|u| - 1]) + u[|u| - 1])
  }

  /** The same recurrence without the wrap: the polynomial sum of the units
      in powers of 31. */
  function Polynomial(u: seq<int>): int {
    if u == [] then 0 else 31 * Polynomial(u[..|u| - 1]) + u[|u| - 1]
  }

  lemma ScaledMultiple(x: int, c: int)
    requires x % TWO32 == 0
    ensures (c * x) % TWO32 == 0
  {
    var k := x / TWO32;
    assert x == k * TWO32;
    assert c * x == (c * k) * TWO32;
    ModMultiple(0, c * k);
  }

  /** The wrapped hash is the polynomial reduced to 32 signed bits. */
  lemma {:induction false} HashCodeIsPolynomial(u: seq<int>)
    ensures HashCode(u) == Int32(Polynomial(u))
  {
    if u != [] {
      var p, last := u[..|u| - 1], u[|u| - 1];
      HashCodeIsPolynomial(p);
      WrapStep(HashCode(p), Polynomial(p), last);
    }
  }

  /** One step of the recurrence keeps a wrapped and an unwrapped value
      congruent modulo 2^32. */
  lemma WrapStep(h: int, p: int, last: int)
    requires (p - h) % TWO32 == 0
    ensures Int32(31 * h + last) == Int32(31 * p + last)
  {
    var d := p - h;
    ScaledMultiple(d, 31);
    var k := (31 * d) / TWO32;
    assert 31 * d == k * TWO32;
    assert (31 * h + last) - (31 * p + last) == (-k) * TWO32;
    ModMultiple(0, -k);
    Int32Congruent(31 * h + last, 31 * p + last);
  }

  /** `hashPassword(password)`: the hash rendered in base 36. */
  function Hash(password: string): (r: string)
    ensures r != []
  {
    ToRadix(HashCode(Utf16(password)), 36)
  }

  /** One step of the loop as written: `((hash << 5) - hash) + char`, then
      `hash & hash`. */
  lemma ShiftStep(h: int, c: int)
    requires -TWO31 <= h < TWO31
    ensures Int32(Int32(h * 32) - h + c) == Int32(31 * h + c)
  {
    var s := Int32(h * 32);
    assert (h * 32 - s) % TWO32 == 0;
    assert (s - h + c) - (31 * h + c) == -(h * 32 - s);
    Int32Congruent(s - h + c, 31 * h + c);
  }

  /** `hashPassword`, looping over the code units. */
  method HashPassword(password: string) returns (r: string)
    ensures r == Hash(password)
  {
    var units := Utf16(password);
    var hash := 0;
    for i := 0 to |units|
      invariant hash == HashCode(units[..i])
    {
      assert units[..i + 1][..i] == units[..i];
      ShiftStep(hash, units[i]);
      hash := Int32(Int32(hash * 32) - hash + units[i]);
    }
    assert units[..|units|] == units;
    r := ToRadix(hash, 36);
  }

  lemma HashExamples()
    ensures Hash("") == "0"
    ensures Hash("a") == "2p"
  {
    assert Utf16("a") == [97];
    assert HashCode([97]) == 97;
  }

  // ------------------------------------------------------------ settings

  /** The configuration object. `maxAttempts` is `None` when the attribute
      does not parse (NaN). */
  datatype Settings = Settings(
    licenseKey: string, password: string, title: string, message: string,
    placeholder: string, submitText: string, errorMessage: string,
    showBranding: bool, maxAttempts: Option<int>, brandingText: string, brandingLink: string)

  const DEFAULTS: Settings := Settings(
    "", "", "Access Required", "Please enter the password to continue",
    "Enter password", "Submit", "Incorrect password. Please try again.",
    true, Some(0), "Protected by LockIn", "https://github.com/ReceiptX/lockin-page")

  /** A script element: its `src` (empty when it has none) and its attributes. */
  datatype Script = Script(src: string, attributes: map<string, string>)

  /** The tag that loaded the gate: its `src` mentions lockin or it carries
      `data-lockin-key`. */
  predicate LoadsGate(tag: Script) {
    Text.Includes(tag.src, "lockin") || "data-lockin-key" in tag.attributes
  }

  /** The first such tag in document order. */
  function FirstGateScript(scripts: seq<Script>): (r: Option<nat>)
    ensures r.None? <==> forall i :: 0 <= i < |scripts| ==> !LoadsGate(scripts[i])
    ensures r.Some? ==> r.value < |scripts| && LoadsGate(scripts[r.value])
    ensures r.Some? ==> forall i :: 0 <= i < r.value ==> !LoadsGate(scripts[i])
  {
    if scripts == [] then None
    else if LoadsGate(scripts[0]) then Some(0)
    else
      var rest := FirstGateScript(scripts[1..]);
      assert forall i :: 1 <= i < |scripts| ==> scripts[i] == scripts[1..][i - 1];
      if rest.None? then None else Some(rest.value + 1)
  }

  /** The search loop of `getConfig`. */
  method FindScriptTag(scripts: seq<Script>) returns (r: Option<nat>)
    ensures r == FirstGateScript(scripts)
  {
    r := None;
    var i := 0;
    while i < |scripts| && r.None?
      invariant 0 <= i <= |scripts|
      invariant r.None? ==> forall j :: 0 <= j < i ==> !LoadsGate(scripts[j])
      invariant r.Some? ==> r.value == i - 1 && LoadsGate(scripts[r.value])
                            && forall j :: 0 <= j < r.value ==> !LoadsGate(scripts[j])
    {
      if LoadsGate(scripts[i]) {
        r := Some(i);
      }
      i := i + 1;
    }
  }

  /** `getAttribute(name)`: null when absent. */
  function Attr(tag: Script, name: string): Option<string> {
    Lookup(tag.attributes, name)
  }

  /** `getAttribute(name) || fallback`. */
  function AttrOr(tag: Script, name: string, fallback: string): (r: string)
    ensures Truthy(Attr(tag, name)) ==> r == Attr(tag, name).value
    ensures !Truthy(Attr(tag, name)) ==> r == fallback
  {
    var a := Attr(tag, name);
    if Truthy(a) then a.value else fallback
  }

  /** The fields `getConfig` overwrites, falling back to `prev`'s values
      (the first two fall back to ""). The branding link and text stay. */
  function Configure(tag: Script, prev: Settings): Settings {
    var branding := Attr(tag, "data-lockin-branding");
    prev.(
      licenseKey := AttrOr(tag, "data-lockin-key", ""),
      password := AttrOr(tag, "data-lockin-password", ""),
      title := AttrOr(tag, "data-lockin-title", prev.title),
      message := AttrOr(tag, "data-lockin-message", prev.message),
      placeholder := AttrOr(tag, "data-lockin-placeholder", prev.placeholder),
      submitText := AttrOr(tag, "data-lockin-submit", prev.submitText),
      errorMessage := AttrOr(tag, "data-lockin-error", prev.errorMessage),
      maxAttempts := ParseDecimal(AttrOr(tag, "data-lockin-max-attempts", "0")),
      showBranding := branding != Some("hide") && branding != Some("false"))
  }

  /** What `getConfig` requires: a license key and a password. */
  predicate Complete(s: Settings) {
    s.licenseKey != "" && s.password != ""
  }

  /** The configuration object. */
  class Config {
    var settings: Settings

    function Current(): Settings
      reads this
    {
      settings
    }

    constructor ()
      ensures Current() == DEFAULTS
    {
      settings := DEFAULTS;
    }

    /** `getConfig()`. */
    method GetConfig(scripts: seq<Script>) returns (r: Option<bool>)
      modifies this
      ensures (Current(), r) == Load(scripts, old(Current()))
    {
      var found := FindScriptTag(scripts);
      if found.None? {
        return None;
      }
      settings := Configure(scripts[found.value], settings);
      if settings.licenseKey == "" {
        return Some(false);
      }
      if settings.password == "" {
        return Some(false);
      }
      return Some(true);
    }
  }

  /** What `getConfig()` leaves and returns: `None` (undefined) and the
      settings unchanged when no tag loads the gate; otherwise the settings
      read from the first such tag and whether they are complete. */
  function Load(scripts: seq<Script>, prev: Settings): (Settings, Option<bool>) {
    match FirstGateScript(scripts)
    case None => (prev, None)
    case Some(i) =>
      var next := Configure(scripts[i], prev);
      (next, Some(Complete(next)))
  }

  /** `getConfig()` reads the first tag that loads the gate and no other,
      and succeeds exactly when that tag names a key and a password. */
  lemma LoadReadsFirstTag(scripts: seq<Script>, prev: Settings)
    ensures var (next, r) := Load(scripts, prev);
            && (r.None? <==> forall i :: 0 <= i < |scripts| ==> !LoadsGate(scripts[i]))
            && (r.None? ==> next == prev)
            && (r.Some? ==> exists i :: 0 <= i < |scripts| && LoadsGate(scripts[i])
                                        && (forall j :: 0 <= j < i ==> !LoadsGate(scripts[j]))
                                        && next == Configure(scripts[i], prev)
                                        && (r.value <==> Truthy(Attr(scripts[i], "data-lockin-key"))
                                                         && Truthy(Attr(scripts[i], "data-lockin-password"))))
  {
    var f := FirstGateScript(scripts);
    if f.Some? {
      CompleteIffKeyAndPassword(scripts[f.value], prev);
    }
  }

  /** Every text field is the attribute when it is set and non-empty, and
      the previous value otherwise. */
  lemma ConfigureFallsBack(tag: Script, prev: Settings)
    ensures var s := Configure(tag, prev);
            && (Truthy(Attr(tag, "data-lockin-title")) ==> s.title == Attr(tag, "data-lockin-title").value)
            && (!Truthy(Attr(tag, "data-lockin-title")) ==> s.title == prev.title)
            && (Truthy(Attr(tag, "data-lockin-message")) ==> s.message == Attr(tag, "data-lockin-message").value)
            && (!Truthy(Attr(tag, "data-lockin-message")) ==> s.message == prev.message)
            && (Truthy(Attr(tag, "data-lockin-placeholder")) ==>
                  s.placeholder == Attr(tag, "data-lockin-placeholder").value)
            && (!Truthy(Attr(tag, "data-lockin-placeholder")) ==> s.placeholder == prev.placeholder)
            && (Truthy(Attr(tag, "data-lockin-submit")) ==> s.submitText == Attr(tag, "data-lockin-submit").value)
            && (!Truthy(Attr(tag, "data-lockin-submit")) ==> s.submitText == prev.submitText)
            && (Truthy(Attr(tag, "data-lockin-error")) ==> s.errorMessage == Attr(tag, "data-lockin-error").value)
            && (!Truthy(Attr(tag, "data-lockin-error")) ==> s.errorMessage == prev.errorMessage)
            && s.brandingText == prev.brandingText && s.brandingLink == prev.brandingLink
  {
  }

  /** The configuration is complete exactly when both the key and the
      password attributes are set and non-empty. */
  lemma CompleteIffKeyAndPassword(tag: Script, prev: Settings)
    ensures Complete(Configure(tag, prev)) <==>
            Truthy(Attr(tag, "data-lockin-key")) && Truthy(Attr(tag, "data-lockin-password"))
  {
  }

  /** Branding is hidden exactly for the values "hide" and "false". */
  lemma BrandingHiddenIff(tag: Script, prev: Settings)
    ensures !Configure(tag, prev).showBranding <==>
            Attr(tag, "data-lockin-branding") == Some("hide") || Attr(tag, "data-lockin-branding") == Some("false")
  {
  }

  /** A missing or empty attempt limit parses as 0, which means unlimited. */
  lemma MaxAttemptsDefault(tag: Script, prev: Settings)
    requires !Truthy(Attr(tag, "data-lockin-max-attempts"))
    ensures Configure(tag, prev).maxAttempts == Some(0)
  {
    ParseDecimalOfToRadix(0);
    assert ToRadix(0, 10) == "0";
  }

  /** A numeric attempt limit is its value; text that does not start with
      a digit is NaN. */
  lemma MaxAttemptsExamples(tag: Script, prev: Settings)
    ensures Attr(tag, "data-lockin-max-attempts") == Some("5") ==> Configure(tag, prev).maxAttempts == Some(5)
    ensures Attr(tag, "data-lockin-max-attempts") == Some("abc") ==> Configure(tag, prev).maxAttempts == None
  {
    ParseDecimalOfToRadix(5);
    assert ToRadix(5, 10) == "5";
    assert Text.TrimStart("abc") == "abc";
  }

  // ------------------------------------------------------- session flag

  const AUTH_KEY := "lockin_auth"
  const ATTEMPTS_KEY := "lockin_attempts"

  type Storage = map<string, string>

  /** What `setAuthenticated` serialises. */
  datatype AuthRecord = AuthRecord(key: string, hash: string, timestamp: int)

  /** What `JSON.parse` gives for the fields read back: `Unparseable` when it
      throws (or the value has no properties to read); a field that is
      missing or not a string is `None`. */
  datatype Parsed = Unparseable | Parsed(key: Option<string>, hash: Option<string>)

  /** `isAuthenticated()`. */
  function IsAuthenticated(storage: Storage, s: Settings, decode: string -> Parsed): (r: bool)
    ensures r ==> Truthy(Lookup(storage, AUTH_KEY))
    ensures r ==> decode(storage[AUTH_KEY]) == Parsed(Some(s.licenseKey), Some(Hash(s.password)))
  {
    var stored := Lookup(storage, AUTH_KEY);
    if !Truthy(stored) then false
    else match decode(stored.value)
      case Unparseable => false
      case Parsed(key, hash) => key == Some(s.licenseKey) && hash == Some(Hash(s.password))
  }

  /** `setAuthenticated()` at time `now`. */
  function SetAuthenticated(storage: Storage, s: Settings, encode: AuthRecord -> string, now: int): (r: Storage)
    ensures r.Keys == storage.Keys + {AUTH_KEY}
    ensures r[AUTH_KEY] == encode(AuthRecord(s.licenseKey, Hash(s.password), now))
    ensures forall k :: k in storage && k != AUTH_KEY ==> r[k] == storage[k]
  {
    storage[AUTH_KEY := encode(AuthRecord(s.licenseKey, Hash(s.password), now))]
  }

  /** Nothing stored, an empty value or one that does not parse: not
      authenticated. */
  lemma NotAuthenticatedWithoutRecord(storage: Storage, s: Settings, decode: string -> Parsed)
    requires AUTH_KEY !in storage || storage[AUTH_KEY] == "" || decode(storage[AUTH_KEY]) == Unparseable
    ensures !IsAuthenticated(storage, s, decode)
  {
  }

  /** After `setAuthenticated()` the check passes under the same
      configuration, provided JSON reads back the two fields it wrote. */
  lemma SetThenAuthenticated(storage: Storage, s: Settings, encode: AuthRecord -> string,
                             decode: string -> Parsed, now: int)
    requires encode(AuthRecord(s.licenseKey, Hash(s.password), now)) != ""
    requires decode(encode(AuthRecord(s.licenseKey, Hash(s.password), now)))
             == Parsed(Some(s.licenseKey), Some(Hash(s.password)))
    ensures IsAuthenticated(SetAuthenticated(storage, s, encode, now), s, decode)
  {
  }

  /** A stored record stops counting once the key changes. */
  lemma OtherKeyNotAuthenticated(storage: Storage, s: Settings, s': Settings, encode: AuthRecord -> string,
                                 decode: string -> Parsed, now: int)
    requires s'.licenseKey != s.licenseKey
    requires decode(encode(AuthRecord(s.licenseKey, Hash(s.password), now)))
             == Parsed(Some(s.licenseKey), Some(Hash(s.password)))
    ensures !IsAuthenticated(SetAuthenticated(storage, s, encode, now), s', decode)
  {
  }

  // ------------------------------------------------------------ attempts

  const LOCKOUT_MESSAGE := "Maximum attempts reached. Please contact the administrator."

  /** What the submit handler reads and changes: session storage, the error
      text and whether it is shown, whether input and submit are disabled,
      and whether the modal is still open. */
  datatype Screen = Screen(storage: Storage, errorText: string, errorShown: bool, locked: bool, open: bool)

  /** Whether attempts are limited: `maxAttempts > 0` (NaN is not). */
  predicate Limited(s: Settings) {
    s.maxAttempts.Some? && s.maxAttempts.value > 0
  }

  /** `parseInt(sessionStorage.getItem('lockin_attempts') || '0', 10)`. */
  function Count(storage: Storage): Option<int> {
    var stored := Lookup(storage, ATTEMPTS_KEY);
    ParseDecimal(if Truthy(stored) then stored.value else "0")
  }

  /** `attempts.toString()`, NaN included. */
  function CountText(n: Option<int>): (r: string)
    ensures r != []
  {
    if n.Some? then ToRadix(n.value, 10) else "NaN"
  }

  /** The error text when at most two attempts remain. */
  function RemainingMessage(s: Settings, remaining: int): string {
    s.errorMessage + " (" + ToRadix(remaining, 10) + " attempts remaining)"
  }

  /** The attempt count after one more wrong password: NaN stays NaN. */
  function Next(count: Option<int>): (r: Option<int>)
    ensures count.Some? <==> r.Some?
    ensures count.Some? ==> r.value == count.value + 1
  {
    if count.Some? then Some(count.value + 1) else None
  }

  /** Whether a count has reached the limit (never for NaN). */
  predicate Reached(attempts: Option<int>, max: int) {
    attempts.Some? && attempts.value >= max
  }

  /** The error text after recording `attempts`: the lockout text at the
      limit, the remaining count when at most two remain, `current`
      otherwise. */
  function Warning(s: Settings, attempts: Option<int>, max: int, current: string): string {
    if Reached(attempts, max) then LOCKOUT_MESSAGE
    else if attempts.Some? && max - attempts.value <= 2 then RemainingMessage(s, max - attempts.value)
    else current
  }

  /** The screen after recording `attempts` against the limit `max`. */
  function Counted(s: Settings, sc: Screen, attempts: Option<int>, max: int): Screen {
    sc.(storage := sc.storage[ATTEMPTS_KEY := CountText(attempts)],
        errorText := Warning(s, attempts, max, sc.errorText),
        locked := sc.locked || Reached(attempts, max))
  }

  /** `handleSubmit` after a wrong password: show the error and, when
      attempts are limited, count the attempt. */
  function Reject(s: Settings, sc: Screen): Screen {
    var shown := sc.(errorText := s.errorMessage, errorShown := true);
    if !Limited(s) then shown
    else Counted(s, shown, Next(Count(sc.storage)), s.maxAttempts.value)
  }

  /** `handleSubmit` for the entered password. The handler has no lock
      check of its own: locking only disables the input and the button, so a
      submission that still reaches it (a scripted one) is judged like any
      other, and a wrong password on a locked screen counts again. */
  function Submit(s: Settings, sc: Screen, entered: string, encode: AuthRecord -> string, now: int): Screen {
    if entered == s.password then
      sc.(storage := SetAuthenticated(sc.storage, s, encode, now), open := false)
    else Reject(s, sc)
  }

  /** The gate's view of the page while the modal is up. */
  class Page {
    const config: Config
    var storage: Storage
    var errorText: string
    var errorShown: bool
    var locked: bool
    var open: bool

    function View(): Screen
      reads this
    {
      Screen(storage, errorText, errorShown, locked, open)
    }

    /** The modal freshly shown over a page with the given session storage. */
    constructor (config: Config, storage: Storage)
      ensures this.config == config
      ensures View() == Screen(storage, "", false, false, true)
    {
      this.config := config;
      this.storage := storage;
      errorText, errorShown, locked, open := "", false, false, true;
    }

    /** `handleSubmit`: store the session flag and close the modal on the
        right password; otherwise show the error and, when attempts are
        limited, count the attempt, lock out or warn. */
    method HandleSubmit(entered: string, encode: AuthRecord -> string, now: int)
      modifies this
      ensures View() == Submit(config.settings, old(View()), entered, encode, now)
    {
      var s := config.settings;
      if entered == s.password {
        var hash := HashPassword(s.password);
        storage := storage[AUTH_KEY := encode(AuthRecord(s.licenseKey, hash, now))];
        open := false;
        return;
      }
      errorText := s.errorMessage;
      errorShown := true;
      if s.maxAttempts.Some? && s.maxAttempts.value > 0 {
        RecordAttempt(s, s.maxAttempts.value);
      }
    }

    /** The attempt tracking of `handleSubmit`: read the stored count, add
        one, store it, then lock out or warn. */
    method RecordAttempt(s: Settings, max: int)
      modifies this
      ensures View() == Counted(s, old(View()), Next(Count(old(storage))), max)
    {
      var previous := Count(storage);
      var attempts := if previous.Some? then Some(previous.value + 1) else None;
      storage := storage[ATTEMPTS_KEY := CountText(attempts)];
      if attempts.Some? && attempts.value >= max {
        errorText := LOCKOUT_MESSAGE;
        locked := true;
      } else if attempts.Some? && max - attempts.value <= 2 {
        errorText := RemainingMessage(s, max - attempts.value);
      }
    }
  }

  /** The right password sets the session flag, which then holds, and
      closes the modal; the attempt counter is left as it was. */
  lemma RightPasswordUnlocks(s: Settings, sc: Screen, encode: AuthRecord -> string,
                             decode: string -> Parsed, now: int)
    requires encode(AuthRecord(s.licenseKey, Hash(s.password), now)) != ""
    requires decode(encode(AuthRecord(s.licenseKey, Hash(s.password), now)))
             == Parsed(Some(s.licenseKey), Some(Hash(s.password)))
    ensures var r := Submit(s, sc, s.password, encode, now);
            IsAuthenticated(r.storage, s, decode) && !r.open && Count(r.storage) == Count(sc.storage)
  {
  }

  /** Without a limit a wrong password only shows the error message: the
      counter and the lock are untouched. */
  lemma UnlimitedNeverCounts(s: Settings, sc: Screen)
    requires !Limited(s)
    ensures Reject(s, sc) == sc.(errorText := s.errorMessage, errorShown := true)
  {
  }

  /** `parseInt(String(n))` gives n back, so the stored counter reads back
      as the number written. */
  lemma CountOfText(storage: Storage, n: Option<int>)
    ensures Count(storage[ATTEMPTS_KEY := CountText(n)]) == n
  {
    var t := CountText(n);
    assert Lookup(storage[ATTEMPTS_KEY := t], ATTEMPTS_KEY) == Some(t);
    if n.Some? {
      ParseDecimalOfToRadix(n.value);
    } else {
      assert Text.TrimStart("NaN") == "NaN";
      assert DecimalPrefix("NaN") == [];
    }
  }

  /** With a limit a wrong password raises the counter by exactly one; a
      counter that reads as NaN stays NaN. The modal stays open. */
  lemma WrongPasswordCounts(s: Settings, sc: Screen)
    requires Limited(s)
    ensures var r := Reject(s, sc);
            Count(r.storage) == Next(Count(sc.storage)) && r.errorShown && r.open == sc.open
  {
    CountOfText(sc.storage, Next(Count(sc.storage)));
  }

  /** With a limit the gate locks once the count reaches it, and stays as
      it was otherwise. */
  lemma WrongPasswordLocks(s: Settings, sc: Screen)
    requires Limited(s)
    ensures var n := Next(Count(sc.storage));
            Reject(s, sc).locked <==> sc.locked || (n.Some? && n.value >= s.maxAttempts.value)
  {
  }

  /** The error text after a wrong password under a limit: the lockout
      text at the limit, the remaining count when at most two remain, the
      configured message otherwise (and whenever the count is NaN). */
  lemma WrongPasswordMessage(s: Settings, sc: Screen)
    requires Limited(s)
    ensures var r := Reject(s, sc);
            var n := Next(Count(sc.storage));
            var max := s.maxAttempts.value;
            && (n.Some? && n.value >= max ==> r.errorText == LOCKOUT_MESSAGE)
            && (n.Some? && n.value < max && max - n.value <= 2 ==> r.errorText == RemainingMessage(s, max - n.value))
            && (n.None? || max - n.value > 2 ==> r.errorText == s.errorMessage)
  {
  }

  /** One wrong submission from the count m under a limit. */
  lemma WrongStep(s: Settings, sc: Screen, m: int)
    requires Limited(s) && Count(sc.storage) == Some(m)
    ensures var r := Reject(s, sc);
            && Count(r.storage) == Some(m + 1)
            && (r.locked <==> sc.locked || m + 1 >= s.maxAttempts.value)
            && r.open == sc.open
  {
    WrongPasswordCounts(s, sc);
    WrongPasswordLocks(s, sc);
  }

  /** `step` applied k times. */
  function Repeat(step: Screen -> Screen, sc: Screen, k: nat): Screen
    decreases k
  {
    if k == 0 then sc else Repeat(step, step(sc), k - 1)
  }

  /** k wrong submissions in a row. */
  function WrongRun(s: Settings, sc: Screen, k: nat): Screen {
    Repeat(x => Reject(s, x), sc, k)
  }

  /** A step that adds one to a readable counter, locks once the counter
      reaches `max`, and leaves the modal as it was. */
  ghost predicate CountsOne(step: Screen -> Screen, count: Screen -> Option<int>, max: int) {
    forall x: Screen {:trigger step(x)} :: count(x).Some? ==>
      && count(step(x)) == Some(count(x).value + 1)
      && (step(x).locked <==> x.locked || count(x).value + 1 >= max)
      && step(x).open == x.open
  }

  /** k counting steps from the count n reach n + k, and lock exactly when
      already locked or n + k reached the limit. */
  lemma {:induction false} CountingRun(step: Screen -> Screen, count: Screen -> Option<int>, max: int,
                                       sc: Screen, k: nat, n: int)
    requires CountsOne(step, count, max) && count(sc) == Some(n)
    ensures var r := Repeat(step, sc, k);
            && count(r) == Some(n + k)
            && (r.locked <==> sc.locked || (k > 0 && n + k >= max))
            && r.open == sc.open
    decreases k
  {
    if k > 0 {
      CountingRun(step, count, max, step(sc), k - 1, n + 1);
    }
  }

  /** A wrong submission under a limit is a counting step. */
  lemma RejectCountsOne(s: Settings)
    requires Limited(s)
    ensures CountsOne(x => Reject(s, x), (x: Screen) => Count(x.storage), s.maxAttempts.value)
  {
    RejectSteps(s);
  }

  /** `WrongStep` from every screen whose counter is readable. */
  lemma RejectSteps(s: Settings)
    requires Limited(s)
    ensures forall x: Screen {:trigger Reject(s, x)} :: Count(x.storage).Some? ==>
              && Count(Reject(s, x).storage) == Some(Count(x.storage).value + 1)
              && (Reject(s, x).locked <==> x.locked || Count(x.storage).value + 1 >= s.maxAttempts.value)
              && Reject(s, x).open == x.open
  {
    forall x: Screen {:trigger Reject(s, x)} | Count(x.storage).Some? {
      WrongStep(s, x, Count(x.storage).value);
    }
  }

  /** After k wrong submissions from a count of n the counter reads n + k,
      and the gate is locked exactly when it already was or n + k reached
      the limit. */
  lemma RepeatedWrongAttempts(s: Settings, sc: Screen, k: nat, n: int)
    requires Limited(s) && Count(sc.storage) == Some(n)
    ensures var r := WrongRun(s, sc, k);
            && Count(r.storage) == Some(n + k)
            && (r.locked <==> sc.locked || (k > 0 && n + k >= s.maxAttempts.value))
            && r.open == sc.open
  {
    RejectCountsOne(s);
    CountingRun(x => Reject(s, x), (x: Screen) => Count(x.storage), s.maxAttempts.value, sc, k, n);
  }

  /** Without a limit no run of wrong submissions touches the session
      storage or the lock. */
  lemma {:induction false} UnlimitedRunKeepsStorage(s: Settings, sc: Screen, k: nat)
    requires !Limited(s)
    ensures var r := WrongRun(s, sc, k);
            r.storage == sc.storage && r.locked == sc.locked && r.open == sc.open
    decreases k
  {
    if k > 0 {
      UnlimitedRunKeepsStorage(s, Reject(s, sc), k - 1);
    }
  }
}
