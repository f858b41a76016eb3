/** The handlers of medicineController.js over the catalog, with the two
    string computations they do: reading the submitted price as a number
    and deriving an image's public id from its URL. */
module MedicineController {
  import opened Wrappers
  import opened MedicineModel

  const FieldsRequired := "Please provide all required fields"
  const InternalError := "Internal server error"
  const MedicineAdded := "Medicine added successfully"
  const IdRequired := "Medicine ID is required"
  const MedicineNotFound := "Medicine not found"
  const DeleteFailed := "Failed to delete medicine"
  const DestroyFolder := "medicines/"

  predicate IsDigit(c: char) {
    '0' <= c <= '9'
  }

  function DigitValue(c: char): (d: nat)
    requires IsDigit(c)
    ensures d < 10
  {
    (c as int) - ('0' as int)
  }

  function DigitChar(d: nat): (c: char)
    requires d < 10
    ensures IsDigit(c) && DigitValue(c) == d
  {
    (('0' as int) + d) as char
  }

  predicate AllDigits(s: string) {
    forall i :: 0 <= i < |s| ==> IsDigit(s[i])
  }

  /** Decimal text: digits with at most one '.', and at least one digit
      ("12", "12.50", "12." and ".5"). */
  predicate IsDecimal(s: string) {
    && (exists i :: 0 <= i < |s| && IsDigit(s[i]))
    && (forall i :: 0 <= i < |s| ==> IsDigit(s[i]) || s[i] == '.')
    && (forall i, j :: 0 <= i < j < |s| && s[i] == '.' ==> s[j] != '.')
  }

  /** A run of digits read as a whole number, most significant first. */
  function WholeValue(s: string): (v: nat)
    requires AllDigits(s)
  {
    if s == [] then 0 else 10 * WholeValue(s[..|s| - 1]) + DigitValue(s[|s| - 1])
  }

  /** The digits after a decimal point read as a fraction: the first one
      counts tenths. */
  function FractionValue(s: string): (v: real)
    requires AllDigits(s)
    ensures 0.0 <= v < 1.0
  {
    if s == [] then 0.0 else ((DigitValue(s[0]) as real) + FractionValue(s[1..])) / 10.0
  }

  /** `Number(price)` on decimal text, as an exact value; any other text
      reads as not a number (None). */
  function DecimalValue(s: string): (r: Option<real>)
    ensures r.Some? <==> IsDecimal(s)
    ensures s != [] && AllDigits(s) ==> r == Some(WholeValue(s) as real)
    ensures r.Some? ==> r.value >= 0.0
  {
    var whole := FirstPart(s);
    var rest := s[|whole|..];
    DecimalShape(s);
    assert ShapedDecimal(whole, rest) <==> IsDecimal(s);
    if !AllDigits(whole) then None
    else if rest == [] then (if whole == [] then None else Some(WholeValue(whole) as real))
    else if !AllDigits(rest[1..]) || (whole == [] && |rest| == 1) then None
    else Some(WholeValue(whole) as real + FractionValue(rest[1..]))
  }

  /** The parts `split('.')` cuts decimal text into: a whole part without
      '.', then either nothing or a '.' and a fraction part. */
  predicate ShapedDecimal(whole: string, rest: string) {
    && AllDigits(whole)
    && (rest == [] ==> whole != [])
    && (rest != [] ==> AllDigits(rest[1..]) && !(whole == [] && |rest| == 1))
  }

  /** Decimal text is exactly text whose parts have that shape. */
  lemma DecimalShape(s: string)
    ensures IsDecimal(s) <==> ShapedDecimal(FirstPart(s), s[|FirstPart(s)|..])
    ensures AllDigits(s) ==> FirstPart(s) == s
  {
    var whole := FirstPart(s);
    var rest := s[|whole|..];
    assert s == whole + rest;
    if IsDecimal(s) {
      DecimalIsShaped(s, whole, rest);
    }
    if ShapedDecimal(whole, rest) {
      ShapedIsDecimal(s, whole, rest);
    }
    if AllDigits(s) && |whole| < |s| {
      assert false;
    }
  }

  lemma DecimalIsShaped(s: string, whole: string, rest: string)
    requires s == whole + rest && '.' !in whole && (rest != [] ==> rest[0] == '.')
    requires IsDecimal(s)
    ensures ShapedDecimal(whole, rest)
  {
    forall i | 0 <= i < |whole| ensures IsDigit(whole[i]) {
      assert s[i] == whole[i];
    }
    if rest != [] {
      forall i | 0 <= i < |rest| - 1 ensures IsDigit(rest[1..][i]) {
        assert s[|whole| + 1 + i] == rest[1..][i];
        assert s[|whole|] == '.';
      }
      if whole == [] && |rest| == 1 {
        assert false;
      }
    }
  }

  lemma ShapedIsDecimal(s: string, whole: string, rest: string)
    requires s == whole + rest && '.' !in whole && (rest != [] ==> rest[0] == '.')
    requires ShapedDecimal(whole, rest)
    ensures IsDecimal(s)
  {
    if whole != [] {
      assert IsDigit(s[0]);
    } else {
      assert IsDigit(rest[1..][0]);
      assert IsDigit(s[1]);
    }
    forall i | 0 <= i < |s| ensures IsDigit(s[i]) || s[i] == '.' {
      if i < |whole| {
        assert s[i] == whole[i];
      } else if i > |whole| {
        assert s[i] == rest[1..][i - |whole| - 1];
      }
    }
    forall i, j | 0 <= i < j < |s| && s[i] == '.' ensures s[j] != '.' {
      assert s[j] == rest[1..][j - |whole| - 1];
    }
  }

  /** Text of the form `whole.fraction` reads as the whole part plus the
      fraction. */
  lemma DecimalValueOfParts(s: string, whole: string, fraction: string)
    requires s == whole + "." + fraction
    requires AllDigits(whole) && AllDigits(fraction) && whole + fraction != []
    ensures DecimalValue(s) == Some(WholeValue(whole) as real + FractionValue(fraction))
  {
    var dotted := ['.'] + fraction;
    assert s == whole + dotted;
    assert '.' !in whole by {
      forall i | 0 <= i < |whole| ensures whole[i] != '.' {
        assert IsDigit(whole[i]);
      }
    }
    FirstPartOfPrefix(whole, dotted);
    assert FirstPart(s) == whole;
    assert s[|whole|..] == dotted;
    assert dotted[1..] == fraction;
    assert AllDigits(dotted[1..]);
    assert |whole + fraction| == |whole| + |fraction| && |dotted| == 1 + |fraction|;
    assert DecimalValue(s) == Some(WholeValue(whole) as real + FractionValue(fraction));
  }

  /** Zeros at the end of the fraction do not change the value. */
  lemma {:induction false} FractionTrailingZero(fraction: string)
    requires AllDigits(fraction)
    ensures AllDigits(fraction + "0") && FractionValue(fraction + "0") == FractionValue(fraction)
  {
    if fraction == [] {
      assert fraction + "0" == "0" && "0"[1..] == [];
    } else {
      FractionTrailingZero(fraction[1..]);
      assert (fraction + "0")[1..] == fraction[1..] + "0";
    }
  }

  /** Zeros at the start of the whole part do not change the value. */
  lemma {:induction false} WholeLeadingZero(whole: string)
    requires AllDigits(whole)
    ensures AllDigits("0" + whole) && WholeValue("0" + whole) == WholeValue(whole)
  {
    if whole == [] {
      assert "0" + whole == "0" && "0"[..0] == [];
    } else {
      WholeLeadingZero(whole[..|whole| - 1]);
      assert ("0" + whole)[..|whole|] == "0" + whole[..|whole| - 1];
    }
  }

  /** "12.50" reads as 12.5, as `Number` reads it. */
  lemma TwelveFifty()
    ensures DecimalValue("12.50") == Some(12.5)
  {
    assert AllDigits("12") && AllDigits("50");
    assert "12" + "." + "50" == "12.50";
    DecimalValueOfParts("12.50", "12", "50");
    assert WholeValue("12") == 12 by {
      assert "12"[..1] == "1";
      assert "1"[..0] == "";
    }
    assert FractionValue("50") == 0.5 by {
      assert "50"[1..] == "0";
      assert "0"[1..] == "";
    }
  }

  /** Text with two points, a letter, or no digit is not a number. */
  lemma NotPriceTexts()
    ensures DecimalValue("1.2.3") == None && DecimalValue("12a") == None && DecimalValue(".") == None
  {
    assert !IsDecimal("1.2.3") by {
      assert "1.2.3"[1] == '.' && "1.2.3"[3] == '.';
    }
    assert !IsDecimal("12a") by {
      assert "12a"[2] == 'a';
    }
    assert !IsDecimal(".");
  }

  /** The text a whole number becomes when the admin form appends it to its
      multipart body: digits without a leading zero. */
  function DecimalText(n: nat): (s: string)
    ensures s != [] && AllDigits(s)
    ensures |s| > 1 ==> s[0] != '0'
  {
    if n < 10 then [DigitChar(n)] else DecimalText(n / 10) + [DigitChar(n % 10)]
  }

  lemma {:induction false} WholeRoundTrip(n: nat)
    ensures WholeValue(DecimalText(n)) == n
  {
    var s := DecimalText(n);
    if n < 10 {
      assert s[..0] == [];
    } else {
      WholeRoundTrip(n / 10);
      assert s[..|s| - 1] == DecimalText(n / 10);
    }
  }

  /** A whole price sent by the admin form is stored unchanged. */
  lemma DecimalRoundTrip(n: nat)
    ensures DecimalValue(DecimalText(n)) == Some(n as real)
  {
    WholeRoundTrip(n);
  }

  /** `split('/').pop()`: the text after the last '/', all of it when there
      is none. */
  function LastSegment(s: string): (r: string)
    ensures |r| <= |s| && r == s[|s| - |r|..]
    ensures '/' !in r
    ensures |r| < |s| ==> s[|s| - |r| - 1] == '/'
  {
    if s == [] || s[|s| - 1] == '/' then []
    else LastSegment(s[..|s| - 1]) + [s[|s| - 1]]
  }

  /** `split('.')[0]`: the text before the first '.', all of it when there
      is none. */
  function FirstPart(s: string): (r: string)
    ensures |r| <= |s| && r == s[..|r|]
    ensures '.' !in r
    ensures |r| < |s| ==> s[|r|] == '.'
  {
    if s == [] || s[0] == '.' then [] else [s[0]] + FirstPart(s[1..])
  }

  /** The public id removeMedicine derives from a stored image URL. */
  function PublicId(imageUrl: string): (r: string)
    ensures '/' !in r && '.' !in r
  {
    FirstPart(LastSegment(imageUrl))
  }

  /** The asset removeMedicine asks the image host to destroy. */
  function DestroyTarget(imageUrl: string): (r: string)
    ensures r == DestroyFolder + PublicId(imageUrl)
    ensures r[..|DestroyFolder|] == DestroyFolder && '/' !in r[|DestroyFolder|..]
  {
    DestroyFolder + PublicId(imageUrl)
  }

  /** For a URL ending in `/<name>.<extension>`, the public id is `name`. */
  lemma PublicIdOfFileUrl(prefix: string, name: string, extension: string)
    requires '/' !in name && '.' !in name && '/' !in extension
    ensures PublicId(prefix + "/" + name + "." + extension) == name
  {
    var url := prefix + "/" + name + "." + extension;
    var tail := name + "." + extension;
    LastSegmentOfSuffix(prefix + "/", tail);
    assert url == (prefix + "/") + tail;
    assert tail == name + ("." + extension);
    FirstPartOfPrefix(name, "." + extension);
  }

  lemma {:induction false} LastSegmentOfSuffix(head: string, tail: string)
    requires head != [] && head[|head| - 1] == '/' && '/' !in tail
    ensures LastSegment(head + tail) == tail
  {
    if tail == [] {
      assert head + tail == head;
    } else {
      var s := head + tail;
      var last := tail[|tail| - 1];
      LastSegmentOfSuffix(head, tail[..|tail| - 1]);
      assert s[..|s| - 1] == head + tail[..|tail| - 1];
      assert s[|s| - 1] == last && last != '/';
      assert LastSegment(s) == LastSegment(s[..|s| - 1]) + [last];
      assert tail == tail[..|tail| - 1] + [last];
    }
  }

  lemma {:induction false} FirstPartOfPrefix(name: string, rest: string)
    requires '.' !in name && rest != [] && rest[0] == '.'
    ensures FirstPart(name + rest) == name
  {
    if name == [] {
      assert name + rest == rest;
    } else {
      FirstPartOfPrefix(name[1..], rest);
      assert (name + rest)[1..] == name[1..] + rest;
    }
  }

  /** The record addMedicine stores, or its reply when it stores none: 400
      when a required field is empty; 500 when no image was uploaded (the
      handler reads the path of a missing file) or the price text is not
      decimal text (`Number` gives NaN, which the save refuses to cast). */
  function NewMedicine(
    name: string, description: string, price: string, category: string, manufacturer: string,
    dosage: string, imageUrl: Option<string>, id: string, now: int): (r: Result<Medicine, Failure>)
    ensures r == Err(BadRequest(FieldsRequired)) <==>
      name == "" || description == "" || price == "" || category == "" || manufacturer == "" || dosage == ""
    ensures r.Err? && r.error != BadRequest(FieldsRequired) ==> r.error == Internal(InternalError)
    ensures r.Ok? <==>
      name != "" && description != "" && category != "" && manufacturer != "" && dosage != ""
      && imageUrl.Some? && DecimalValue(price).Some?
    ensures r.Ok? ==>
      r.value == Medicine(id, name, category, manufacturer, description, DecimalValue(price).value,
                          dosage, imageUrl.value, now, now)
      && Conforms(r.value)
  {
    if name == "" || description == "" || price == "" || category == "" || manufacturer == "" || dosage == "" then
      Err(BadRequest(FieldsRequired))
    else if imageUrl.None? then Err(Internal(InternalError))
    else match DecimalValue(price)
      case None => Err(Internal(InternalError))
      case Some(p) =>
        Ok(Medicine(id, name, category, manufacturer, description, p, dosage, imageUrl.value, now, now))
  }

  /** A record placed into a newest-first list at its place by date. */
  function InsertByDate(m: Medicine, s: seq<Medicine>): (r: seq<Medicine>)
    requires NewestFirst(s)
    ensures forall x :: x in r ==> x == m || x in s
    ensures NewestFirst(r)
    ensures multiset(r) == multiset(s) + multiset{m}
  {
    if s == [] then [m]
    else if m.createdAt >= s[0].createdAt then [m] + s
    else
      var rest := InsertByDate(m, s[1..]);
      HeadIsNewest(s, m, rest);
      assert s == [s[0]] + s[1..];
      [s[0]] + rest
  }

  lemma HeadIsNewest(s: seq<Medicine>, m: Medicine, rest: seq<Medicine>)
    requires NewestFirst(s) && s != [] && m.createdAt < s[0].createdAt
    requires NewestFirst(rest) && forall x :: x in rest ==> x == m || x in s[1..]
    ensures NewestFirst([s[0]] + rest)
  {
    forall j | 0 <= j < |rest| ensures rest[j].createdAt <= s[0].createdAt {
      assert rest[j] in rest;
      if rest[j] != m {
        var i :| 0 <= i < |s[1..]| && s[1..][i] == rest[j];
        assert s[i + 1] == rest[j];
      }
    }
  }

  /** `sort({ createdAt: -1 })`. */
  function SortNewestFirst(s: seq<Medicine>): (r: seq<Medicine>)
    ensures NewestFirst(r)
    ensures multiset(r) == multiset(s)
  {
    if s == [] then []
    else
      assert s == [s[0]] + s[1..];
      InsertByDate(s[0], SortNewestFirst(s[1..]))
  }

  class Catalog {
    var medicines: seq<Medicine>

    ghost predicate Valid()
      reads this
    {
      UniqueIds(medicines)
    }

    constructor (initial: seq<Medicine>)
      requires UniqueIds(initial)
      ensures medicines == initial && Valid()
    {
      medicines := initial;
    }

    /** addMedicine. `imageUrl` is the URL the image host returned for the
        uploaded file (None when no file came or the upload failed), and
        `id` the id the database gives the new record. */
    method AddMedicine(
      name: string, description: string, price: string, category: string, manufacturer: string,
      dosage: string, imageUrl: Option<string>, id: string, now: int) returns (r: Result<string, Failure>)
      requires forall i :: 0 <= i < |medicines| ==> medicines[i].id != id
      modifies this
      ensures var n := NewMedicine(name, description, price, category, manufacturer, dosage, imageUrl, id, now);
        && (r.Ok? <==> n.Ok?)
        && (r.Ok? ==> r.value == MedicineAdded && medicines == old(medicines) + [n.value])
        && (r.Err? ==> r.error == n.error && medicines == old(medicines))
      ensures old(Valid()) ==> Valid()
    {
      var n := NewMedicine(name, description, price, category, manufacturer, dosage, imageUrl, id, now);
      if n.Err? {
        return Err(n.error);
      }
      medicines := medicines + [n.value];
      r := Ok(MedicineAdded);
    }

    /** listMedicines: every record, newest first, and their number. */
    method ListMedicines() returns (data: seq<Medicine>, count: int)
      ensures NewestFirst(data)
      ensures multiset(data) == multiset(medicines)
      ensures count == |data| == |medicines|
    {
      data := SortNewestFirst(medicines);
      assert |data| == |multiset(data)| == |multiset(medicines)| == |medicines|;
      count := |data|;
    }

    /** removeMedicine. `destroyed` is the asset it asks the image host to
        destroy, if any; `destroySucceeds` is that call's outcome. The record
        is gone before the call, so a failed call still removes it. */
    method RemoveMedicine(id: string, destroySucceeds: bool) returns (r: Result<string, Failure>, destroyed: Option<string>)
      modifies this
      ensures id == "" ==> r == Err(BadRequest(IdRequired)) && destroyed == None && medicines == old(medicines)
      ensures id != "" && IndexOfId(old(medicines), id) == -1 ==>
        r == Err(NotFound(MedicineNotFound)) && destroyed == None && medicines == old(medicines)
      ensures id != "" && IndexOfId(old(medicines), id) >= 0 ==>
        var k := IndexOfId(old(medicines), id);
        var gone := old(medicines)[k];
        && medicines == old(medicines)[..k] + old(medicines)[k + 1..]
        && destroyed == (if gone.imageUrl == "" then None else Some(DestroyTarget(gone.imageUrl)))
        && r == (if destroyed.Some? && !destroySucceeds then Err(Internal(DeleteFailed)) else Ok(gone.id))
      ensures old(Valid()) ==> Valid()
      ensures old(Valid()) && r.Ok? ==> forall m :: m in medicines <==> m in old(medicines) && m.id != id
    {
      destroyed := None;
      if id == "" {
        return Err(BadRequest(IdRequired)), None;
      }
      var k := IndexOfId(medicines, id);
      if k == -1 {
        return Err(NotFound(MedicineNotFound)), None;
      }
      var gone := medicines[k];
      if Valid() {
        DeleteAtKeepsUniqueIds(medicines, k);
        forall m ensures m in medicines[..k] + medicines[k + 1..] <==> m in medicines && m.id != id {
          DeleteAtRemovesOnlyThatId(medicines, k, m);
        }
      }
      medicines := medicines[..k] + medicines[k + 1..];
      if gone.imageUrl != "" {
        destroyed := Some(DestroyTarget(gone.imageUrl));
        if !destroySucceeds {
          return Err(Internal(DeleteFailed)), destroyed;
        }
      }
      r := Ok(gone.id);
    }

    /** getMedicine changes nothing. */
    method GetMedicine(id: string) returns (r: Result<Medicine, Failure>)
      ensures id == "" ==> r == Err(BadRequest(IdRequired))
      ensures id != "" ==> (r == Err(NotFound(MedicineNotFound)) <==> forall i :: 0 <= i < |medicines| ==> medicines[i].id != id)
      ensures r.Ok? <==> id != "" && exists i :: 0 <= i < |medicines| && medicines[i].id == id
      ensures r.Ok? ==> r.value in medicines && r.value.id == id
    {
      if id == "" {
        return Err(BadRequest(IdRequired));
      }
      var k := IndexOfId(medicines, id);
      if k == -1 {
        return Err(NotFound(MedicineNotFound));
      }
      r := Ok(medicines[k]);
    }
  }
}
