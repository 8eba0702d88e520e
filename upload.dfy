/** The upload configurations: the name a stored upload gets and the MIME
    filter.  File names are JavaScript strings, so they are sequences of
    UTF-16 code units here: a character outside the Basic Multilingual
    Plane is two units, and each unit is replaced on its own. */
module Upload {
  import opened Common

  newtype CodeUnit = x: int | 0 <= x < 0x1_0000

  type Utf16 = seq<CodeUnit>

  const Underscore: CodeUnit := 0x5F
  const Hyphen: CodeUnit := 0x2D
  const Dot: CodeUnit := 0x2E

  /** The class `[a-zA-Z0-9.-]`. */
  predicate Allowed(c: CodeUnit) {
    (0x61 <= c <= 0x7A) || (0x41 <= c <= 0x5A) || (0x30 <= c <= 0x39) || c == Dot || c == Hyphen
  }

  /** What a sanitised name may hold: the class above and the underscore. */
  predicate Safe(c: CodeUnit) {
    Allowed(c) || c == Underscore
  }

  /** `name.replace(/[^a-zA-Z0-9.-]/g, "_")` */
  function Sanitize(name: Utf16): (r: Utf16)
    ensures |r| == |name|
    ensures forall i :: 0 <= i < |r| ==> Safe(r[i])
    ensures forall i :: 0 <= i < |name| ==> Allowed(name[i]) ==> r[i] == name[i]
    ensures forall i :: 0 <= i < |name| ==> !Allowed(name[i]) ==> r[i] == Underscore
    ensures forall i :: 0 <= i < |name| ==> (r[i] == name[i] <==> Safe(name[i]))
  {
    seq(|name|, i requires 0 <= i < |name| => if Allowed(name[i]) then name[i] else Underscore)
  }

  /** Sanitising a sanitised name changes nothing. */
  lemma SanitizeIdempotent(name: Utf16)
    ensures Sanitize(Sanitize(name)) == Sanitize(name)
  {
    var once := Sanitize(name);
    forall i | 0 <= i < |once|
      ensures Sanitize(once)[i] == once[i]
    {
      if !Allowed(once[i]) {
        assert once[i] == Underscore;
      }
    }
  }

  /** A name made of safe units is its own sanitised form (an underscore is
      replaced by itself). */
  lemma SanitizeKeepsSafeNames(name: Utf16)
    requires forall i :: 0 <= i < |name| ==> Safe(name[i])
    ensures Sanitize(name) == name
  {
  }

  /** ASCII text, such as decimal digits, as code units. */
  function Ascii(s: string): (r: Utf16)
    requires forall i :: 0 <= i < |s| ==> s[i] as int < 0x80
    ensures |r| == |s|
  {
    seq(|s|, i requires 0 <= i < |s| => s[i] as int as CodeUnit)
  }

  /** `${Date.now()}-${safeName}`: `now` is the clock in milliseconds. */
  function StoredName(now: nat, originalName: Utf16): Utf16 {
    var digits := NatToString(now);
    Ascii(digits) + [Hyphen] + Sanitize(originalName)
  }

  /** The stored name is the timestamp's digits, a hyphen and the sanitised
      name, and holds only safe units. */
  lemma StoredNameShape(now: nat, originalName: Utf16)
    ensures var r, d := StoredName(now, originalName), |NatToString(now)|;
      && |r| == d + 1 + |originalName|
      && r[d] == Hyphen
      && r[d + 1..] == Sanitize(originalName)
      && (forall i :: 0 <= i < d ==> 0x30 <= r[i] <= 0x39)
      && (forall i :: 0 <= i < |r| ==> Safe(r[i]))
  {
    var digits := NatToString(now);
    var r := StoredName(now, originalName);
    assert r[..|digits|] == Ascii(digits);
    assert forall i :: 0 <= i < |digits| ==> r[i] == Ascii(digits)[i];
  }

  /** `${Date.now()}-${file.originalname}`: the name the résumé route's own
      upload middleware gives a stored file, with no sanitising. */
  function RouteStoredName(now: nat, originalName: Utf16): Utf16 {
    Ascii(NatToString(now)) + [Hyphen] + originalName
  }

  /** The résumé route's stored name is the timestamp's digits, a hyphen and
      the original name unchanged. */
  lemma RouteStoredNameShape(now: nat, originalName: Utf16)
    ensures var r, d := RouteStoredName(now, originalName), |NatToString(now)|;
      && |r| == d + 1 + |originalName|
      && r[d] == Hyphen
      && r[d + 1..] == originalName
      && (forall i :: 0 <= i < d ==> 0x30 <= r[i] <= 0x39)
  {
    var digits := NatToString(now);
    var r := RouteStoredName(now, originalName);
    assert r[..|digits|] == Ascii(digits);
    assert forall i :: 0 <= i < |digits| ==> r[i] == Ascii(digits)[i];
  }

  /** The two upload configurations name a file alike exactly when its
      original name holds only safe units. */
  lemma RouteNameAgrees(now: nat, originalName: Utf16)
    ensures RouteStoredName(now, originalName) == StoredName(now, originalName)
        <==> forall i :: 0 <= i < |originalName| ==> Safe(originalName[i])
  {
    var d := |NatToString(now)|;
    if RouteStoredName(now, originalName) == StoredName(now, originalName) {
      RouteStoredNameShape(now, originalName);
      StoredNameShape(now, originalName);
      assert Sanitize(originalName) == originalName;
    }
    if forall i :: 0 <= i < |originalName| ==> Safe(originalName[i]) {
      SanitizeKeepsSafeNames(originalName);
    }
  }

  /** The verdict of the file filter. */
  datatype Verdict = Accept | Reject(message: string)

  const AllowedTypes: seq<string> := ["application/pdf", "text/plain"]
  const RejectMessage: string := "Invalid file type. Only PDF and TXT are allowed."

  /** `fileFilter`, written alike in both upload configurations: an allowed
      MIME type is accepted, any other rejected with an error. */
  function FileFilter(mimeType: string): (r: Verdict)
    ensures r.Accept? <==> mimeType == "application/pdf" || mimeType == "text/plain"
    ensures r.Reject? ==> r.message == RejectMessage
  {
    if mimeType in AllowedTypes then Accept else Reject(RejectMessage)
  }
}
