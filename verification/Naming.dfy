/** The names of object files: the one the store generates from an object's
    class, stable identifier and commitment, and the ones players choose. */
module Naming {
  import opened Wrappers
  import opened Text

  const EXTENSION: string := ".dobj"

  predicate IsHashPrefix(s: string) {
    |s| == 16 && forall i :: 0 <= i < 16 ==> IsDigit(s[i]) || 'a' <= s[i] <= 'f'
  }

  /** An object as its name sees it: class prefix and the leading 16 hex digits
      of stable identifier and commitment, which determine the object. */
  datatype RawObject = RawObject(prefix: string, stable: string, commitment: string)

  type Object = o: RawObject | o.prefix != "" && IsHashPrefix(o.stable) && IsHashPrefix(o.commitment)
    witness RawObject("p", "0000000000000000", "0000000000000000")

  /** `<prefix>_<stable id>_<commitment>.dobj`. */
  function GeneratedName(o: Object): string {
    o.prefix + "_" + o.stable + "_" + o.commitment + EXTENSION
  }

  /** Whether `name` has the shape of a generated name. */
  predicate HasGeneratedShape(name: string) {
    HasSuffix(name, EXTENSION) && IsGeneratedStem(name[..|name| - |EXTENSION|])
  }

  /** Split at the last two underscores into prefix and two hash prefixes. */
  predicate IsGeneratedStem(stem: string) {
    var i := LastIndexOf(stem, '_');
    if i < 0 then false
    else
      var j := LastIndexOf(stem[..i], '_');
      j > 0 && IsHashPrefix(stem[i + 1..]) && IsHashPrefix(stem[..i][j + 1..])
  }

  /** The object a name of generated shape belongs to. */
  function NamedObject(name: string): (o: Object)
    requires HasGeneratedShape(name)
    ensures GeneratedName(o) == name
  {
    var stem := name[..|name| - |EXTENSION|];
    var i := LastIndexOf(stem, '_');
    var j := LastIndexOf(stem[..i], '_');
    var o := RawObject(stem[..i][..j], stem[..i][j + 1..], stem[i + 1..]);
    assert stem == stem[..i] + "_" + stem[i + 1..];
    assert stem[..i] == stem[..i][..j] + "_" + stem[..i][j + 1..];
    assert name == stem + EXTENSION;
    o
  }

  /** How a generated name is spelled: class prefix, stable identifier and
      commitment, with underscores between. */
  lemma GeneratedNameSpelled(o: Object)
    ensures var name, n := GeneratedName(o), |o.prefix|;
      && |name| == n + 39 && name[..n] == o.prefix && name[n] == '_' && name[n + 1..n + 17] == o.stable
      && name[n + 17] == '_' && name[n + 18..n + 34] == o.commitment && name[n + 34..] == ".dobj"
  {
  }

  /** A generated name has the shape and is parsed back to its object, so
      generated names are injective and belong to one object each. */
  lemma GeneratedNameRoundTrip(o: Object)
    ensures HasGeneratedShape(GeneratedName(o)) && NamedObject(GeneratedName(o)) == o
  {
    var name := GeneratedName(o);
    var stem := o.prefix + "_" + o.stable + "_" + o.commitment;
    assert name == stem + EXTENSION;
    assert name[..|name| - |EXTENSION|] == stem && name[|name| - |EXTENSION|..] == EXTENSION;
    var i := |o.prefix| + 17;
    assert stem[i + 1..] == o.commitment;
    forall k | i < k < |stem| ensures stem[k] != '_' {
      assert stem[k] == o.commitment[k - i - 1];
    }
    LastIndexOfAt(stem, '_', i);
    var front := stem[..i];
    assert front == o.prefix + "_" + o.stable;
    var j := |o.prefix|;
    forall k | j < k < |front| ensures front[k] != '_' {
      assert front[k] == o.stable[k - j - 1];
    }
    LastIndexOfAt(front, '_', j);
    assert front[..j] == o.prefix && front[j + 1..] == o.stable;
  }

  lemma GeneratedNameInjective(a: Object, b: Object)
    requires GeneratedName(a) == GeneratedName(b)
    ensures a == b
  {
    GeneratedNameRoundTrip(a);
    GeneratedNameRoundTrip(b);
  }

  // ------------------------------------------------------------------
  // Names players choose

  const MAX_CUSTOM_FILE_NAME_BYTES: nat := 200

  const FORBIDDEN: string := "/\\<>:\"|?*"

  const DEVICE_NAMES: seq<string> := [
    "con", "prn", "aux", "nul",
    "com1", "com2", "com3", "com4", "com5", "com6", "com7", "com8", "com9",
    "lpt1", "lpt2", "lpt3", "lpt4", "lpt5", "lpt6", "lpt7", "lpt8", "lpt9"]

  datatype NameError = Empty | Forbidden(c: char) | LeadingDot | Reserved | TooLong | NotThisObjects

  predicate IsForbidden(c: char) { IsControl(c) || c in FORBIDDEN }

  predicate StartsWithDot(s: string) { s != "" && s[0] == '.' }

  /** What precedes the first dot names a device, whatever the extension. */
  predicate IsDeviceName(requested: string) {
    LowerAll(TrimEnd(BeforeFirst(requested, '.'))) in DEVICE_NAMES
  }

  function FirstForbidden(s: string): (r: Result<char, ()>)
    ensures r.Ok? ==> r.value in s && IsForbidden(r.value)
    ensures r.Err? <==> forall c :: c in s ==> !IsForbidden(c)
  {
    if s == "" then Err(())
    else if IsForbidden(s[0]) then Ok(s[0])
    else
      assert s == [s[0]] + s[1..];
      FirstForbidden(s[1..])
  }

  function WithExtension(s: string): (r: string)
    ensures HasSuffix(r, EXTENSION)
  {
    if HasSuffix(s, EXTENSION) then s else s + EXTENSION
  }

  /** Not blank, free of characters some platform refuses, not hidden, no device
      name, and at most 200 bytes with its extension. */
  predicate IsSafeName(requested: string) {
    && Trim(requested) != "" && (forall c :: c in requested ==> !IsForbidden(c)) && !StartsWithDot(requested)
    && !IsDeviceName(requested) && Utf8Length(WithExtension(requested)) <= MAX_CUSTOM_FILE_NAME_BYTES
  }

  /** Of generated shape only if it is the object's own. */
  predicate IsOwnOrChosen(name: string, generated: string) {
    name == generated || !HasGeneratedShape(name)
  }

  /** `requested` as a file name for the object whose generated name is
      `generated`, or why it is refused. */
  function CustomFileName(requested: string, generated: string): (r: Result<string, NameError>)
    ensures r.Ok? ==> r.value == WithExtension(requested)
    ensures r.Ok? <==> IsSafeName(requested) && IsOwnOrChosen(WithExtension(requested), generated)
  {
    var name := WithExtension(requested);
    if Trim(requested) == "" then Err(Empty)
    else if FirstForbidden(requested).Ok? then Err(Forbidden(FirstForbidden(requested).value))
    else if StartsWithDot(requested) then Err(LeadingDot)
    else if IsDeviceName(requested) then Err(Reserved)
    else if Utf8Length(name) > MAX_CUSTOM_FILE_NAME_BYTES then Err(TooLong)
    else if name != generated && HasGeneratedShape(name) then Err(NotThisObjects)
    else Ok(name)
  }

  /** What each refusal means: the first rule broken, in this order. */
  lemma RefusalMeans(requested: string, generated: string)
    ensures var r := CustomFileName(requested, generated);
      var name := if HasSuffix(requested, ".dobj") then requested else requested + ".dobj";
      && (r == Err(Empty) <==> IsBlank(requested))
      && (r.Err? && r.error.Forbidden? <==> !IsBlank(requested) && !IsClean(requested))
      && (r.Err? && r.error.Forbidden? ==> r.error.c in requested && IsForbidden(r.error.c))
      && (r == Err(LeadingDot) <==> !IsBlank(requested) && IsClean(requested) && requested[0] == '.')
      && (r == Err(Reserved) <==> IsShown(requested) && IsDeviceName(requested))
      && (r == Err(TooLong) <==> IsShown(requested) && !IsDeviceName(requested) && Utf8Length(name) > 200)
      && (r == Err(NotThisObjects) ==> HasGeneratedShape(name) && name != generated)
      && (r.Ok? ==> r.value == name)
  {
    hide HasGeneratedShape, IsDeviceName, IsForbidden, Utf8Length, Trim, IsBlank, FirstForbidden;
    TrimmedAway(requested);
    BlankIsEmpty();
  }

  predicate IsClean(s: string) { forall c :: c in s ==> !IsForbidden(c) }

  /** Not blank, clean and not hidden. */
  predicate IsShown(s: string) { !IsBlank(s) && IsClean(s) && s != "" && s[0] != '.' }

  lemma BlankIsEmpty()
    ensures IsBlank("")
  {
  }

  /** Nothing is left exactly of what is whitespace only. */
  lemma TrimmedAway(s: string)
    ensures Trim(s) == "" <==> IsBlank(s)
  {
    hide Trim;
    var before, after := TrimSplits(s);
    if Trim(s) == "" {
      assert s == before + after;
    } else {
      assert s[|before|] == Trim(s)[0];
    }
  }

  /** `<stem> <n>.dobj`. */
  function Numbered(stem: string, n: nat): string {
    stem + " " + Decimal(n) + EXTENSION
  }

  lemma NumberedInjective(stem: string, m: nat, n: nat)
    requires Numbered(stem, m) == Numbered(stem, n)
    ensures m == n
  {
    var a, b := Numbered(stem, m), Numbered(stem, n);
    assert a[|stem| + 1..|a| - |EXTENSION|] == Decimal(m);
    assert b[|stem| + 1..|b| - |EXTENSION|] == Decimal(n);
    DecimalInjective(m, n);
  }

  /** A name with `c` after its last underscore, `c` not a hex digit, is not of
      generated shape. */
  lemma NotGenerated(name: string, k: nat)
    requires k < |name| - |EXTENSION|
    requires !IsDigit(name[k]) && !('a' <= name[k] <= 'f')
    requires forall i :: k < i < |name| - |EXTENSION| ==> name[i] != '_'
    requires name[k] != '_'
    ensures !HasGeneratedShape(name)
  {
    var stem := name[..|name| - |EXTENSION|];
    var i := LastIndexOf(stem, '_');
    assert stem[k] == name[k];
    assert i < k;
    assert stem[i + 1..][k - i - 1] == name[k];
  }

  lemma NumberedNotGenerated(stem: string, n: nat)
    ensures !HasGeneratedShape(Numbered(stem, n))
  {
    var name := Numbered(stem, n);
    var k := |stem|;
    assert name[k] == ' ';
    forall i | k < i < |name| - |EXTENSION| ensures name[i] != '_' {
      assert name[i] == Decimal(n)[i - k - 1];
      DecimalDigits(n, i - k - 1);
    }
    NotGenerated(name, k);
  }

  lemma DecimalDigits(n: nat, i: nat)
    requires i < |Decimal(n)|
    ensures IsDigit(Decimal(n)[i])
  {
  }

  /** The first of `<stem> n.dobj`, `<stem> n+1.dobj`, ... not taken. `left` is
      what remains of `taken` without the names tried so far, so the search
      ends. */
  function FirstFree(stem: string, n: nat, taken: set<string>, left: set<string>): (k: nat)
    requires left <= taken
    requires forall m: nat :: m >= n && Numbered(stem, m) in taken ==> Numbered(stem, m) in left
    ensures k >= n && Numbered(stem, k) !in taken
    ensures forall m :: n <= m < k ==> Numbered(stem, m) in taken
    decreases |left|
  {
    if Numbered(stem, n) !in taken then n
    else
      var rest := left - {Numbered(stem, n)};
      assert forall m: nat :: m >= n + 1 && Numbered(stem, m) in taken ==> Numbered(stem, m) in rest by {
        forall m: nat | m >= n + 1 && Numbered(stem, m) in taken ensures Numbered(stem, m) in rest {
          if Numbered(stem, m) == Numbered(stem, n) { NumberedInjective(stem, m, n); }
        }
      }
      FirstFree(stem, n + 1, taken, rest)
  }

  /** `name` if free, otherwise the first free numbered variant. */
  function UniqueFileName(name: string, taken: set<string>): (r: string)
    ensures r !in taken
    ensures name !in taken ==> r == name
    ensures name in taken ==> IsNextVariant(WithoutSuffix(name, EXTENSION), taken, r)
  {
    if name !in taken then name
    else
      var k := FirstFree(WithoutSuffix(name, EXTENSION), 2, taken, taken);
      assert IsFirstFree(WithoutSuffix(name, EXTENSION), k, taken);
      Numbered(WithoutSuffix(name, EXTENSION), k)
  }

  /** `r` is the first free numbered variant. */
  ghost predicate IsNextVariant(stem: string, taken: set<string>, r: string) {
    exists k: nat :: IsFirstFree(stem, k, taken) && r == Numbered(stem, k)
  }

  /** Of the variants from 2 on, `k` is the first that is free. */
  predicate IsFirstFree(stem: string, k: nat, taken: set<string>) {
    k >= 2 && Numbered(stem, k) !in taken && forall m :: 2 <= m < k ==> Numbered(stem, m) in taken
  }

  /** How a name in use is made unique: the least number from 2 on that gives a
      free name, in decimal digits behind a blank. */
  lemma UniqueSpelled(name: string, taken: set<string>) returns (k: nat)
    requires name in taken
    ensures var stem := if HasSuffix(name, ".dobj") then name[..|name| - 5] else name;
      && k >= 2 && UniqueFileName(name, taken) == stem + " " + Decimal(k) + ".dobj"
      && forall m: nat :: 2 <= m < k ==> stem + " " + Decimal(m) + ".dobj" in taken
  {
    hide Decimal;
    var stem := WithoutSuffix(name, EXTENSION);
    assert IsNextVariant(stem, taken, UniqueFileName(name, taken));
    var n: nat :| IsFirstFree(stem, n, taken) && UniqueFileName(name, taken) == Numbered(stem, n);
    k := n;
    forall m: nat | 2 <= m < k ensures stem + " " + Decimal(m) + ".dobj" in taken {
      assert Numbered(stem, m) in taken;
    }
  }

  lemma UniqueNotGenerated(name: string, taken: set<string>)
    requires !HasGeneratedShape(name)
    ensures !HasGeneratedShape(UniqueFileName(name, taken))
  {
    if name in taken {
      var stem := WithoutSuffix(name, EXTENSION);
      var r := UniqueFileName(name, taken);
      assert IsNextVariant(stem, taken, r);
      var k: nat :| IsFirstFree(stem, k, taken) && r == Numbered(stem, k);
      NumberedNotGenerated(stem, k);
    }
  }

  const PENDING_SUFFIX: string := "-pending"

  function PendingBase(finalName: string): string {
    WithoutSuffix(finalName, EXTENSION) + PENDING_SUFFIX + EXTENSION
  }

  /** The name of a new version while its transaction awaits the chain. */
  function PendingFileName(finalName: string, taken: set<string>): (r: string)
    ensures r !in taken
  {
    UniqueFileName(PendingBase(finalName), taken)
  }

  /** The pending name is the custom one with "-pending" before its extension, made
      unique like any other. */
  lemma PendingSpelled(finalName: string, taken: set<string>)
    ensures var stem := if HasSuffix(finalName, ".dobj") then finalName[..|finalName| - 5] else finalName;
      && PendingFileName(finalName, taken) == UniqueFileName(stem + "-pending.dobj", taken)
      && (stem + "-pending.dobj" !in taken ==> PendingFileName(finalName, taken) == stem + "-pending.dobj")
  {
    hide UniqueFileName;
    var stem := WithoutSuffix(finalName, EXTENSION);
    assert PENDING_SUFFIX + EXTENSION == "-pending.dobj";
    assert PendingBase(finalName) == stem + "-pending.dobj";
  }

  lemma PendingNotGenerated(finalName: string, taken: set<string>)
    ensures !HasGeneratedShape(PendingFileName(finalName, taken))
  {
    var base := PendingBase(finalName);
    var k := |WithoutSuffix(finalName, EXTENSION)|;
    assert base == WithoutSuffix(finalName, EXTENSION) + (PENDING_SUFFIX + EXTENSION);
    assert base[k..] == PENDING_SUFFIX + EXTENSION;
    assert base[k] == '-';
    forall i | k < i < |base| - |EXTENSION| ensures base[i] != '_' {
      assert base[i] == base[k..][i - k] == PENDING_SUFFIX[i - k];
    }
    NotGenerated(base, k);
    UniqueNotGenerated(base, taken);
  }

  /** The name an imported object is filed under. */
  function ImportedFileName(requested: string, generated: string, taken: set<string>): (r: Result<string, NameError>) {
    var custom := CustomFileName(requested, generated);
    if custom.Err? || custom.value == generated then custom
    else Ok(UniqueFileName(custom.value, taken))
  }

  /** Neither renaming nor importing ever gives an object a name that has the
      form of another object's generated name. */
  lemma ChosenNamesAreOwn(requested: string, o: Object, taken: set<string>)
    ensures var r := CustomFileName(requested, GeneratedName(o));
            r.Ok? && HasGeneratedShape(r.value) ==> NamedObject(r.value) == o
    ensures var r := ImportedFileName(requested, GeneratedName(o), taken);
            r.Ok? ==> (r.value == GeneratedName(o) || (r.value !in taken && !HasGeneratedShape(r.value)))
  {
    GeneratedNameRoundTrip(o);
    var custom := CustomFileName(requested, GeneratedName(o));
    if custom.Ok? && custom.value != GeneratedName(o) {
      UniqueNotGenerated(custom.value, taken);
    }
  }
}
