/** Typed attribute options: a recognised key parses its value into a typed
 *  payload; any other key is kept verbatim as `Other`. */
module Options {
  import opened Wrappers
  import Text
  import opened Numbers

  datatype AttrOption =
    | Example(text: string)
    | MinimumValue(number: F64)
    | MaximumValue(number: F64)
    | MinItems(count: nat)
    | MaxItems(count: nat)
    | MinLength(count: nat)
    | MaxLength(count: nat)
    | Pattern(text: string)
    | Unique(flag: bool)
    | MultipleOf(factor: int)
    | ExclusiveMinimum(number: F64)
    | ExclusiveMaximum(number: F64)
    | PrimaryKey(flag: bool)
    | ReadOnly(flag: bool)
    | Recommended(flag: bool)
    | Other(key: string, value: string)

  /** The payload fits the Rust type of its variant (`usize`, `i32`). */
  predicate WellFormed(o: AttrOption)
  {
    match o
    case MinItems(n) => n <= USIZE_MAX
    case MaxItems(n) => n <= USIZE_MAX
    case MinLength(n) => n <= USIZE_MAX
    case MaxLength(n) => n <= USIZE_MAX
    case MultipleOf(i) => I32_MIN <= i <= I32_MAX
    case _ => true
  }

  /** The derived `EnumString::from_str`: the exact (case-sensitive) variant
   *  names, each variant filled with default payloads. `Other` is not
   *  excluded from it. */
  function StrumFromStr(key: string): Option<AttrOption>
  {
    if key == "Example" then Some(Example(""))
    else if key == "minimum" then Some(MinimumValue("0"))
    else if key == "maximum" then Some(MaximumValue("0"))
    else if key == "minitems" then Some(MinItems(0))
    else if key == "maxitems" then Some(MaxItems(0))
    else if key == "minlength" then Some(MinLength(0))
    else if key == "maxlength" then Some(MaxLength(0))
    else if key == "pattern" || key == "regex" then Some(Pattern(""))
    else if key == "unique" then Some(Unique(false))
    else if key == "multipleof" then Some(MultipleOf(0))
    else if key == "exclusiveminimum" then Some(ExclusiveMinimum("0"))
    else if key == "exclusivemaximum" then Some(ExclusiveMaximum("0"))
    else if key == "pk" then Some(PrimaryKey(false))
    else if key == "readonly" then Some(ReadOnly(false))
    else if key == "recommended" then Some(Recommended(false))
    else if key == "Other" then Some(Other("", ""))
    else None
  }

  /** The derived `Display`: the longest serialisation of each variant. */
  function StrumName(o: AttrOption): string
  {
    match o
    case Example(_) => "Example"
    case MinimumValue(_) => "minimum"
    case MaximumValue(_) => "maximum"
    case MinItems(_) => "minitems"
    case MaxItems(_) => "maxitems"
    case MinLength(_) => "minlength"
    case MaxLength(_) => "maxlength"
    case Pattern(_) => "pattern"
    case Unique(_) => "unique"
    case MultipleOf(_) => "multipleof"
    case ExclusiveMinimum(_) => "exclusiveminimum"
    case ExclusiveMaximum(_) => "exclusivemaximum"
    case PrimaryKey(_) => "pk"
    case ReadOnly(_) => "readonly"
    case Recommended(_) => "recommended"
    case Other(_, _) => "Other"
  }

  /** The position of the variant in the declaration. */
  function Tag(o: AttrOption): nat
  {
    match o
    case Example(_) => 0
    case MinimumValue(_) => 1
    case MaximumValue(_) => 2
    case MinItems(_) => 3
    case MaxItems(_) => 4
    case MinLength(_) => 5
    case MaxLength(_) => 6
    case Pattern(_) => 7
    case Unique(_) => 8
    case MultipleOf(_) => 9
    case ExclusiveMinimum(_) => 10
    case ExclusiveMaximum(_) => 11
    case PrimaryKey(_) => 12
    case ReadOnly(_) => 13
    case Recommended(_) => 14
    case Other(_, _) => 15
  }

  /** Same variant, payloads ignored. */
  predicate SameVariant(a: AttrOption, b: AttrOption)
  {
    Tag(a) == Tag(b)
  }

  /** The value parsed for the variant `kind` names. */
  function ParseFor(kind: AttrOption, key: string, value: string): (r: Result<AttrOption>)
    requires !kind.Other?
    ensures r.Ok? ==> SameVariant(r.value, kind) && WellFormed(r.value)
    ensures !IsPanic(r)
  {
    match kind
    case Example(_) => Ok(Example(value))
    case Pattern(_) => Ok(Pattern(value))
    case MinimumValue(_) => var f := ParseF64(value); if f.Some? then Ok(MinimumValue(f.value)) else Err("invalid float literal")
    case MaximumValue(_) => var f := ParseF64(value); if f.Some? then Ok(MaximumValue(f.value)) else Err("invalid float literal")
    case ExclusiveMinimum(_) => var f := ParseF64(value); if f.Some? then Ok(ExclusiveMinimum(f.value)) else Err("invalid float literal")
    case ExclusiveMaximum(_) => var f := ParseF64(value); if f.Some? then Ok(ExclusiveMaximum(f.value)) else Err("invalid float literal")
    case MinItems(_) => var n := ParseUsize(value); if n.Some? then Ok(MinItems(n.value)) else Err("invalid digit found in string")
    case MaxItems(_) => var n := ParseUsize(value); if n.Some? then Ok(MaxItems(n.value)) else Err("invalid digit found in string")
    case MinLength(_) => var n := ParseUsize(value); if n.Some? then Ok(MinLength(n.value)) else Err("invalid digit found in string")
    case MaxLength(_) => var n := ParseUsize(value); if n.Some? then Ok(MaxLength(n.value)) else Err("invalid digit found in string")
    case MultipleOf(_) => var n := ParseI32(value); if n.Some? then Ok(MultipleOf(n.value)) else Err("invalid digit found in string")
    case Unique(_) => var b := ParseBool(value); if b.Some? then Ok(Unique(b.value)) else Err("provided string was not `true` or `false`")
    case PrimaryKey(_) => var b := ParseBool(value); if b.Some? then Ok(PrimaryKey(b.value)) else Err("provided string was not `true` or `false`")
    case ReadOnly(_) => var b := ParseBool(value); if b.Some? then Ok(ReadOnly(b.value)) else Err("provided string was not `true` or `false`")
    case Recommended(_) => var b := ParseBool(value); if b.Some? then Ok(Recommended(b.value)) else Err("provided string was not `true` or `false`")
  }

  /** `AttrOption::from_pair` as written: the key "Other" is recognised by
   *  the derived parser and then reaches the `unreachable!()` arm. */
  function FromPairAsWritten(key: string, value: string): Result<AttrOption>
  {
    match StrumFromStr(key)
    case None => Ok(Other(key, value))
    case Some(kind) => if kind.Other? then Panic("internal error: entered unreachable code") else ParseFor(kind, key, value)
  }

  /** `AttrOption::from_pair` with the key "Other" treated like every other
   *  unrecognised key. */
  function FromPair(key: string, value: string): (r: Result<AttrOption>)
    ensures StrumFromStr(key).None? || key == "Other" ==> r == Ok(Other(key, value))
    ensures r.Ok? && r.value.Other? ==> r.value == Other(key, value)
    ensures !IsPanic(r)
  {
    StrumOtherOnly(key);
    if key == "Other" then Ok(Other(key, value)) else FromPairAsWritten(key, value)
  }

  /** Only the key "Other" names the variant `Other`. */
  lemma StrumOtherOnly(key: string)
    ensures StrumFromStr(key).Some? && StrumFromStr(key).value.Other? <==> key == "Other"
  {
  }

  /** The key "Other" makes `from_pair` as written panic, where every other
   *  key not naming a variant gives `Other`; on all other keys the two agree. */
  lemma FromPairAsWrittenOther(value: string)
    ensures IsPanic(FromPairAsWritten("Other", value))
    ensures FromPair("Other", value) == Ok(Other("Other", value))
    ensures FromPair("other", value) == Ok(Other("other", value))
  {
  }

  lemma FromPairAgrees(key: string, value: string)
    requires key != "Other"
    ensures FromPair(key, value) == FromPairAsWritten(key, value)
  {
  }

  /** A recognised key yields its own variant, with an in-range payload, or an
   *  error; "pattern" and "regex" both give `Pattern` of the value. */
  lemma FromPairRecognised(key: string, value: string)
    requires StrumFromStr(key).Some? && key != "Other"
    ensures FromPair(key, value).Ok? ==> SameVariant(FromPair(key, value).value, StrumFromStr(key).value)
    ensures FromPair(key, value).Ok? ==> WellFormed(FromPair(key, value).value)
    ensures key == "pattern" || key == "regex" ==> FromPair(key, value) == Ok(Pattern(value))
  {
    var kind := StrumFromStr(key).value;
    assert !kind.Other?;
    assert FromPair(key, value) == ParseFor(kind, key, value);
  }

  /** `AttrOption::key`: the stored key of `Other`, the variant name otherwise. */
  function Key(o: AttrOption): (k: string)
    ensures o.Other? ==> k == o.key
    ensures !o.Other? ==> StrumFromStr(k).Some? && SameVariant(StrumFromStr(k).value, o)
  {
    if o.Other? then o.key else StrumName(o)
  }

  /** `AttrOption::value`: the payload printed with `Display`. */
  function Value(o: AttrOption): string
  {
    match o
    case Other(_, v) => v
    case Example(t) => t
    case Pattern(t) => t
    case MinimumValue(f) => ShowF64(f)
    case MaximumValue(f) => ShowF64(f)
    case ExclusiveMinimum(f) => ShowF64(f)
    case ExclusiveMaximum(f) => ShowF64(f)
    case MinItems(n) => ShowNat(n)
    case MaxItems(n) => ShowNat(n)
    case MinLength(n) => ShowNat(n)
    case MaxLength(n) => ShowNat(n)
    case MultipleOf(i) => ShowInt(i)
    case Unique(b) => ShowBool(b)
    case PrimaryKey(b) => ShowBool(b)
    case ReadOnly(b) => ShowBool(b)
    case Recommended(b) => ShowBool(b)
  }

  /** `AttrOption::to_pair`. */
  function ToPair(o: AttrOption): (p: (string, string))
  {
    (Key(o), Value(o))
  }

  /** The options `from_pair` can return: payloads in range, and an `Other`
   *  only under a key no variant claims. */
  predicate Producible(o: AttrOption)
  {
    WellFormed(o) && (o.Other? ==> StrumFromStr(o.key).None? || o.key == "Other")
  }

  /** A negative count and a fractional factor are errors. */
  lemma FromPairRejectsBadNumbers()
    ensures FromPair("minitems", "-1").Err?
    ensures FromPair("multipleof", "3.5").Err?
  {
    FromPairMinItems("-1");
    FromPairMultipleOf("3.5");
    assert !AllDigits("3.5") by { assert !Text.IsDigit("3.5"[1]); }
  }

  /** A "minitems" count is read exactly when its value is a `usize`. */
  lemma FromPairMinItems(v: string)
    ensures FromPair("minitems", v).Ok? <==> ParseUsize(v).Some?
  {
    assert StrumFromStr("minitems") == Some(MinItems(0));
  }

  /** A "multipleof" factor is read exactly when its value is an `i32`. */
  lemma FromPairMultipleOf(v: string)
    ensures FromPair("multipleof", v).Ok? <==> ParseI32(v).Some?
  {
    assert StrumFromStr("multipleof") == Some(MultipleOf(0));
  }

  /** A flag other than "true" or "false" is an error. */
  lemma FromPairRejectsBadFlags()
    ensures FromPair("unique", "not_a_bool").Err?
    ensures FromPair("pk", "invalid").Err?
  {
    FromPairUnique("not_a_bool");
    FromPairPrimaryKey("invalid");
  }

  /** A "unique" flag is read exactly when its value is "true" or "false". */
  lemma FromPairUnique(v: string)
    ensures FromPair("unique", v).Ok? <==> v == "true" || v == "false"
  {
    assert StrumFromStr("unique") == Some(Unique(false));
  }

  /** A "pk" flag is read exactly when its value is "true" or "false". */
  lemma FromPairPrimaryKey(v: string)
    ensures FromPair("pk", v).Ok? <==> v == "true" || v == "false"
  {
    assert StrumFromStr("pk") == Some(PrimaryKey(false));
  }

  /** A minimum that is not a number is an error. */
  lemma FromPairRejectsNonNumber()
    ensures FromPair("minimum", "not_a_number").Err?
  {
    NotAFloatLiteral("not_a_number");
    FromPairMinimum("not_a_number");
  }

  /** A "minimum" is read exactly when its value is a float literal. */
  lemma FromPairMinimum(v: string)
    ensures FromPair("minimum", v).Ok? <==> IsFloatLiteral(v)
  {
    assert StrumFromStr("minimum") == Some(MinimumValue("0"));
  }

  /** Text starting "no" is neither a special float name nor a decimal. */
  lemma NotAFloatLiteral(s: string)
    requires |s| >= 2 && s[0] == 'n' && s[1] == 'o'
    ensures !IsFloatLiteral(s)
  {
    NotASpecialFloat(s);
    NotADecimal(s);
  }

  lemma NotASpecialFloat(s: string)
    requires |s| >= 2 && s[1] == 'o'
    ensures Text.ToLower(s) !in {"inf", "infinity", "nan"}
  {
    assert Text.ToLower(s)[1] == 'o';
    assert "inf"[1] == 'n' && "infinity"[1] == 'n' && "nan"[1] == 'a';
  }

  lemma NotADecimal(s: string)
    requires s != [] && s[0] == 'n'
    ensures !IsDecimalNumber(s)
  {
    var t := s[..ExponentStart(s)];
    if t != [] {
      assert t[0] == 'n';
    }
  }

  lemma FromPairProducible(key: string, value: string)
    requires FromPair(key, value).Ok?
    ensures Producible(FromPair(key, value).value)
  {
  }

  /** `from_pair(to_pair(o)) == o` for every option `from_pair` returns. */
  lemma {:induction false} FromPairToPair(o: AttrOption)
    requires Producible(o)
    ensures FromPair(Key(o), Value(o)) == Ok(o)
  {
    if o.Other? {
    } else if Tag(o) < 4 {
      FromPairToPairPart1(o);
    } else if Tag(o) < 8 {
      FromPairToPairPart2(o);
    } else if Tag(o) < 12 {
      FromPairToPairPart3(o);
    } else {
      FromPairToPairPart4(o);
    }
  }

  lemma FromPairToPairPart1(o: AttrOption)
    requires Producible(o) && Tag(o) < 4
    ensures FromPair(Key(o), Value(o)) == Ok(o)
  {
    match o
    case MinItems(n) => ParseShowInt(n, false, 0, USIZE_MAX);
    case _ =>
  }

  lemma FromPairToPairPart2(o: AttrOption)
    requires Producible(o) && 4 <= Tag(o) < 8
    ensures FromPair(Key(o), Value(o)) == Ok(o)
  {
    match o
    case MaxItems(n) => ParseShowInt(n, false, 0, USIZE_MAX);
    case MinLength(n) => ParseShowInt(n, false, 0, USIZE_MAX);
    case MaxLength(n) => ParseShowInt(n, false, 0, USIZE_MAX);
    case _ =>
  }

  lemma FromPairToPairPart3(o: AttrOption)
    requires Producible(o) && 8 <= Tag(o) < 12
    ensures FromPair(Key(o), Value(o)) == Ok(o)
  {
    match o
    case MultipleOf(i) => ParseShowInt(i, true, I32_MIN, I32_MAX);
    case _ =>
  }

  lemma FromPairToPairPart4(o: AttrOption)
    requires Producible(o) && 12 <= Tag(o) < 15
    ensures FromPair(Key(o), Value(o)) == Ok(o)
  {
  }

  /** The serialised form of an option. */
  datatype RawOption = RawOption(key: string, value: string)

  /** `RawOption::new`: the key is lower-cased, the value kept. */
  function NewRawOption(key: string, value: string): (r: RawOption)
    ensures r.key == Text.ToLower(key) && r.value == value
  {
    RawOption(Text.ToLower(key), value)
  }

  /** `From<AttrOption> for RawOption`. */
  function RawFrom(o: AttrOption): RawOption
  {
    NewRawOption(Key(o), Value(o))
  }

  /** `TryFrom<RawOption> for AttrOption`: `from_pair` as written, so a raw
   *  key "Other" panics. */
  function TryFromRaw(raw: RawOption): (r: Result<AttrOption>)
    ensures raw.key == "Other" ==> IsPanic(r)
    ensures raw.key != "Other" ==> r == FromPair(raw.key, raw.value)
  {
    if raw.key == "Other" then
      FromPairAsWrittenOther(raw.value);
      FromPairAsWritten(raw.key, raw.value)
    else
      FromPairAgrees(raw.key, raw.value);
      FromPairAsWritten(raw.key, raw.value)
  }

  /** A lower-cased key is never "Other", so on a key that went through
   *  `RawOption::new` the function as written and the corrected one agree. */
  lemma LowerNotOther(s: string)
    ensures Text.ToLower(s) != "Other"
  {
    if |s| == 5 {
      assert Text.ToLower(s)[0] == Text.ToLowerChar(s[0]);
      assert "Other"[0] == 'O';
    }
  }

  /** A raw option built by `RawOption::new` reads as the corrected
   *  `from_pair` reads its key and value. */
  lemma TryFromNewRaw(key: string, value: string)
    ensures TryFromRaw(NewRawOption(key, value)) == FromPair(Text.ToLower(key), value)
  {
    LowerNotOther(key);
    assert NewRawOption(key, value).key == Text.ToLower(key);
    FromPairAgrees(Text.ToLower(key), value);
  }

  /** The raw key "Other", which `RawOption::new` never produces, panics. */
  lemma TryFromRawOther(value: string)
    ensures IsPanic(TryFromRaw(RawOption("Other", value)))
  {
    FromPairAsWrittenOther(value);
  }

  /** Upper-case spellings of a recognised key still reach their variant
   *  through `RawOption::new`. */
  lemma RawOptionIgnoresKeyCase(key: string, value: string)
    requires Text.ToLower(key) == "minimum"
    ensures TryFromRaw(NewRawOption(key, value)) == FromPair("minimum", value)
  {
    TryFromNewRaw(key, value);
  }

  lemma ToLowerOfLower(s: string)
    requires forall i :: 0 <= i < |s| ==> !Text.IsAsciiUpper(s[i])
    ensures Text.ToLower(s) == s
  {
  }

  /** An `Example` written as a `RawOption` comes back as `Other`: its key
   *  "Example" is lower-cased on the way out and no longer recognised. */
  lemma RawRoundTripExample(t: string)
    ensures TryFromRaw(RawFrom(Example(t))) == Ok(Other("example", t))
  {
    LowerExample();
    assert RawFrom(Example(t)) == RawOption("example", t);
    assert StrumFromStr("example").None?;
  }

  lemma LowerExample()
    ensures Text.ToLower("Example") == "example"
  {
  }

  lemma RawRoundTripOther(k: string, v: string)
    requires Producible(Other(k, v))
    ensures TryFromRaw(RawFrom(Other(k, v))) == Ok(Other(k, v)) <==> Text.ToLower(k) == k
  {
    assert RawFrom(Other(k, v)) == RawOption(Text.ToLower(k), v);
    TryFromNewRaw(k, v);
  }

  lemma RawRoundTripTyped(o: AttrOption)
    requires Producible(o) && !o.Other? && !o.Example?
    ensures TryFromRaw(RawFrom(o)) == Ok(o)
  {
    KeyIsLowerCase(o);
    FromPairToPair(o);
    TryFromNewRaw(Key(o), Value(o));
  }

  /** Every variant name except "Example" is already lower-case. */
  lemma KeyIsLowerCase(o: AttrOption)
    requires !o.Other? && !o.Example?
    ensures Text.ToLower(Key(o)) == Key(o)
  {
    match o
    case MinimumValue(_) | MaximumValue(_) => LowerBoundNames(o);
    case ExclusiveMinimum(_) | ExclusiveMaximum(_) => LowerExclusiveNames(o);
    case MinItems(_) | MaxItems(_) => LowerItemNames(o);
    case MinLength(_) | MaxLength(_) => LowerLengthNames(o);
    case Pattern(_) | Unique(_) | MultipleOf(_) => LowerValueNames(o);
    case PrimaryKey(_) | ReadOnly(_) | Recommended(_) => LowerFlagNames(o);
  }

  lemma LowerBoundNames(o: AttrOption)
    requires o.MinimumValue? || o.MaximumValue?
    ensures Text.ToLower(StrumName(o)) == StrumName(o)
  {
    match o
    case MinimumValue(_) => LowerMinimum();
    case MaximumValue(_) => LowerMaximum();
  }

  lemma LowerMinimum()
    ensures Text.ToLower("minimum") == "minimum"
  {
    ToLowerOfLower("minimum");
  }

  lemma LowerMaximum()
    ensures Text.ToLower("maximum") == "maximum"
  {
    ToLowerOfLower("maximum");
  }

  lemma LowerExclusiveNames(o: AttrOption)
    requires o.ExclusiveMinimum? || o.ExclusiveMaximum?
    ensures Text.ToLower(StrumName(o)) == StrumName(o)
  {
    match o
    case ExclusiveMinimum(_) => LowerExclusiveMinimum();
    case ExclusiveMaximum(_) => LowerExclusiveMaximum();
  }

  lemma LowerExclusiveMinimum()
    ensures Text.ToLower("exclusiveminimum") == "exclusiveminimum"
  {
    ToLowerOfLower("exclusiveminimum");
  }

  lemma LowerExclusiveMaximum()
    ensures Text.ToLower("exclusivemaximum") == "exclusivemaximum"
  {
    ToLowerOfLower("exclusivemaximum");
  }

  lemma LowerItemNames(o: AttrOption)
    requires o.MinItems? || o.MaxItems?
    ensures Text.ToLower(StrumName(o)) == StrumName(o)
  {
    match o
    case MinItems(_) => ToLowerOfLower("minitems");
    case MaxItems(_) => ToLowerOfLower("maxitems");
  }

  lemma LowerLengthNames(o: AttrOption)
    requires o.MinLength? || o.MaxLength?
    ensures Text.ToLower(StrumName(o)) == StrumName(o)
  {
    match o
    case MinLength(_) => ToLowerOfLower("minlength");
    case MaxLength(_) => ToLowerOfLower("maxlength");
  }

  lemma LowerValueNames(o: AttrOption)
    requires o.Pattern? || o.Unique? || o.MultipleOf?
    ensures Text.ToLower(StrumName(o)) == StrumName(o)
  {
    match o
    case Pattern(_) => ToLowerOfLower("pattern");
    case Unique(_) => ToLowerOfLower("unique");
    case MultipleOf(_) => ToLowerOfLower("multipleof");
  }

  lemma LowerFlagNames(o: AttrOption)
    requires o.PrimaryKey? || o.ReadOnly? || o.Recommended?
    ensures Text.ToLower(StrumName(o)) == StrumName(o)
  {
    match o
    case PrimaryKey(_) => ToLowerOfLower("pk");
    case ReadOnly(_) => ToLowerOfLower("readonly");
    case Recommended(_) => ToLowerOfLower("recommended");
  }

  /** Writing an option as a `RawOption` and reading it back gives it again
   *  exactly when it is not an `Example` and, for `Other`, when its key has no
   *  upper-case letter. */
  lemma {:induction false} RawRoundTrip(o: AttrOption)
    requires Producible(o)
    ensures TryFromRaw(RawFrom(o)) == Ok(o) <==> !o.Example? && (o.Other? ==> Text.ToLower(o.key) == o.key)
  {
    if o.Example? {
      RawRoundTripExample(o.text);
    } else if o.Other? {
      RawRoundTripOther(o.key, o.value);
    } else {
      RawRoundTripTyped(o);
    }
  }
}
