/**
 * The name under which an uploaded recording is stored:
 * `${room}-${ts}-${originalname}` with every character outside `[A-Za-z0-9-_.]`
 * replaced by `_`. Strings are sequences of UTF-16 code units, one `char` each,
 * as the regular expression (which has no `u` flag) sees them.
 */
module UploadNames {
  import opened Wrappers

  /** The character class `[a-zA-Z0-9-_.]`. */
  predicate Allowed(c: char)
  {
    ('a' <= c <= 'z') || ('A' <= c <= 'Z') || ('0' <= c <= '9') || c == '-' || c == '_' || c == '.'
  }

  predicate AllAllowed(s: string)
  {
    forall i :: 0 <= i < |s| ==> Allowed(s[i])
  }

  /** `s.replace(/[^a-zA-Z0-9-_.]/g, '_')`: allowed characters stay in place, every other one becomes `_`. */
  function Sanitize(s: string): (r: string)
    ensures |r| == |s|
    ensures forall i :: 0 <= i < |s| ==> r[i] == if Allowed(s[i]) then s[i] else '_'
  {
    if s == [] then [] else [if Allowed(s[0]) then s[0] else '_'] + Sanitize(s[1..])
  }

  /** Every character of a sanitised name is in the allowed class. */
  lemma SanitizeAllowed(s: string)
    ensures AllAllowed(Sanitize(s))
  {
  }

  /** A name made only of allowed characters is left as it is. */
  lemma SanitizeKeepsAllowed(s: string)
    requires AllAllowed(s)
    ensures Sanitize(s) == s
  {
  }

  /** Sanitising twice is sanitising once. */
  lemma SanitizeIdempotent(s: string)
    ensures Sanitize(Sanitize(s)) == Sanitize(s)
  {
    SanitizeAllowed(s);
    SanitizeKeepsAllowed(Sanitize(s));
  }

  /** Sanitising distributes over concatenation, since it works character by character. */
  lemma SanitizeAppend(a: string, b: string)
    ensures Sanitize(a + b) == Sanitize(a) + Sanitize(b)
  {
  }

  /** The decimal digit of a value below ten. */
  function Digit(d: nat): (c: char)
    requires d < 10
    ensures '0' <= c <= '9'
    ensures c as int - '0' as int == d
  {
    ('0' as int + d) as char
  }

  predicate AllDigits(s: string)
  {
    forall i :: 0 <= i < |s| ==> '0' <= s[i] <= '9'
  }

  /** The number a string of decimal digits denotes, most significant digit first. */
  function Value(ds: string): nat
    requires AllDigits(ds)
  {
    if ds == [] then 0 else Value(ds[..|ds| - 1]) * 10 + (ds[|ds| - 1] as int - '0' as int)
  }

  /** The decimal rendering of a timestamp in milliseconds, as `${ts}` writes it: digits only, no leading zero. */
  function Decimal(n: nat): (r: string)
    ensures r != []
    ensures AllDigits(r) && AllAllowed(r)
    ensures r[0] != '0' || n == 0
    decreases n
  {
    if n < 10 then [Digit(n)] else Decimal(n / 10) + [Digit(n % 10)]
  }

  /** The digits `Decimal` writes denote the timestamp itself. */
  lemma {:induction false} DecimalValue(n: nat)
    ensures Value(Decimal(n)) == n
  {
    if n >= 10 {
      DecimalValue(n / 10);
      var ds := Decimal(n);
      assert ds[..|ds| - 1] == Decimal(n / 10);
    }
  }

  /** `req.body.room || 'unknown'`. */
  function RoomOrUnknown(room: Option<string>): (r: string)
    ensures r != []
    ensures Truthy(room) ==> r == room.value
    ensures !Truthy(room) ==> r == "unknown"
  {
    if Truthy(room) then room.value else "unknown"
  }

  /** The stored file name for an upload to `room` at time `ts` of a file called `original`. */
  function FileName(room: Option<string>, ts: nat, original: string): (name: string)
    ensures |name| == |RoomOrUnknown(room)| + |Decimal(ts)| + |original| + 2
    ensures AllAllowed(name)
  {
    SanitizeAllowed(RoomOrUnknown(room) + "-" + Decimal(ts) + "-" + original);
    Sanitize(RoomOrUnknown(room) + "-" + Decimal(ts) + "-" + original)
  }

  /** Sanitising the template touches only the room and the original name: the dashes and digits are allowed already. */
  lemma SanitizeTemplate(prefix: string, digits: string, original: string)
    requires AllAllowed(digits)
    ensures Sanitize(prefix + "-" + digits + "-" + original) == Sanitize(prefix) + "-" + digits + "-" + Sanitize(original)
  {
    SanitizeAppend(prefix + "-" + digits + "-", original);
    SanitizeAppend(prefix + "-" + digits, "-");
    SanitizeAppend(prefix + "-", digits);
    SanitizeAppend(prefix, "-");
    SanitizeKeepsAllowed(digits);
    assert Sanitize("-") == "-";
  }

  /** An allowed character is never a path separator. */
  lemma AllowedHasNoSeparator(s: string)
    requires AllAllowed(s)
    ensures forall i :: 0 <= i < |s| ==> s[i] != '/' && s[i] != '\\'
  {
  }

  /** The first two parts of `head + middle + dash + tail` can be read back by slicing. */
  lemma LeadingParts(head: string, middle: string, dash: string, tail: string)
    ensures (head + middle + dash + tail)[..|head|] == head
    ensures (head + middle + dash + tail)[|head|..][..|middle|] == middle
  {
    assert (head + middle + dash + tail)[|head|..][..|middle|] == (head + middle)[|head|..];
  }

  /** The stored name is the sanitised room, a dash, the timestamp's digits, a dash and the sanitised original name. */
  lemma FileNameLayout(room: Option<string>, ts: nat, original: string)
    ensures var name := FileName(room, ts, original);
      && name[..|RoomOrUnknown(room)| + 1] == Sanitize(RoomOrUnknown(room)) + "-"
      && name[|RoomOrUnknown(room)| + 1..][..|Decimal(ts)|] == Decimal(ts)
  {
    var prefix := RoomOrUnknown(room);
    var digits := Decimal(ts);
    SanitizeTemplate(prefix, digits, original);
    LeadingParts(Sanitize(prefix) + "-", digits, "-", Sanitize(original));
  }

  /**
   * The stored name keeps the template's length, holds only allowed characters (so no path
   * separator), carries the timestamp's digits verbatim after the sanitised room and a dash,
   * and is never `.` or `..`, so it always names a plain file inside the recordings directory.
   */
  lemma FileNameIsSafe(room: Option<string>, ts: nat, original: string)
    ensures var name := FileName(room, ts, original);
      && |name| == |RoomOrUnknown(room)| + |Decimal(ts)| + |original| + 2
      && AllAllowed(name)
      && (forall i :: 0 <= i < |name| ==> name[i] != '/' && name[i] != '\\')
      && name[..|RoomOrUnknown(room)| + 1] == Sanitize(RoomOrUnknown(room)) + "-"
      && name[|RoomOrUnknown(room)| + 1..][..|Decimal(ts)|] == Decimal(ts)
      && name != "." && name != ".."
  {
    AllowedHasNoSeparator(FileName(room, ts, original));
    FileNameLayout(room, ts, original);
  }
}
