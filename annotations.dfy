/**
 * Reading an annotation file in `CXRDataset.__getitem__` (`cxr_dm_aux.py`):
 * `np.array(f.read().replace("\n", " ").strip().split(" ")).astype(np.float32).reshape(-1, 5)`
 * followed by `data[:, 1:]`. The caller catches the `ValueError` that expression raises for
 * a token that is not a number and for a token count that is not a multiple of five; here
 * both are `None`. Numbers are the plain decimal numerals with an optional sign.
 */
module Annotations {
  import opened Wrappers
  import opened PyStrings
  import opened Boxes

  predicate IsDigit(c: char)
  {
    '0' <= c <= '9'
  }

  predicate AllDigits(s: string)
  {
    forall i :: 0 <= i < |s| ==> IsDigit(s[i])
  }

  /** The characters a decimal numeral is made of. */
  predicate IsNumeralChar(c: char)
  {
    IsDigit(c) || c == '.' || c == '+' || c == '-'
  }

  /** The value of a string of decimal digits. */
  function DigitsValue(s: string): nat
    requires AllDigits(s)
  {
    if s == [] then 0 else DigitsValue(s[..|s| - 1]) * 10 + (s[|s| - 1] as int - '0' as int)
  }

  function Pow10(n: nat): (r: nat)
    ensures r >= 1
  {
    if n == 0 then 1 else 10 * Pow10(n - 1)
  }

  /** A numeral split at its first `.` into two digit strings is made of digits and that `.`. */
  lemma DigitsAroundPoint(t: string, whole: string, frac: string)
    requires |whole| <= |t| && whole == t[..|whole|] && AllDigits(whole) && AllDigits(frac)
    requires |whole| < |t| ==> t[|whole|] == '.' && frac == t[|whole| + 1..]
    requires |whole| == |t| ==> frac == []
    ensures forall i :: 0 <= i < |t| ==> IsDigit(t[i]) || t[i] == '.'
  {
    forall i | 0 <= i < |t|
      ensures IsDigit(t[i]) || t[i] == '.'
    {
      if i < |whole| {
        assert t[i] == whole[i];
      } else if i > |whole| {
        assert t[i] == frac[i - |whole| - 1];
      }
    }
  }

  /** The number with whole digits `whole` and fraction digits `frac`. */
  function DecimalValue(whole: string, frac: string): real
    requires AllDigits(whole) && AllDigits(frac)
  {
    DigitsValue(whole) as real + DigitsValue(frac) as real / Pow10(|frac|) as real
  }

  /** An unsigned decimal numeral: digits, optionally a point and more digits, not both parts empty. */
  function ParseUnsigned(t: string): (r: Option<real>)
    ensures r.Some? ==> t != [] && forall i :: 0 <= i < |t| ==> IsDigit(t[i]) || t[i] == '.'
  {
    var whole := BeforeFirst(t, ".");
    var frac := if |whole| < |t| then t[|whole| + 1..] else [];
    if AllDigits(whole) && AllDigits(frac) && (whole != [] || frac != []) then
      assert |whole| < |t| ==> t[|whole|] == '.' by {
        if |whole| < |t| {
          assert OccursAt(t, ".", |whole|);
          assert t[|whole|..|whole| + 1] == ".";
        }
      }
      DigitsAroundPoint(t, whole, frac);
      Some(DecimalValue(whole, frac))
    else None
  }

  /**
   * A plain decimal numeral with an optional sign; `None` for any other text, the empty
   * one included.
   */
  function ParseNumeral(t: string): (r: Option<real>)
    ensures r.Some? ==> t != [] && forall i :: 0 <= i < |t| ==> IsNumeralChar(t[i])
  {
    if t != [] && (t[0] == '+' || t[0] == '-') then
      match ParseUnsigned(t[1..])
      case None => None
      case Some(v) =>
        assert forall i :: 1 <= i < |t| ==> t[i] == t[1..][i - 1];
        Some(if t[0] == '-' then -v else v)
    else
      match ParseUnsigned(t)
      case None => None
      case Some(v) => Some(v)
  }

  /** The sign a numeral may start with: none, `+` or `-`. */
  predicate IsSign(sign: string)
  {
    sign == "" || sign == "+" || sign == "-"
  }

  /**
   * `t` is the numeral with sign `sign`, whole digits `whole` and, when `point` holds, a
   * `.` followed by the fraction digits `frac`; at least one of the digit strings is not empty.
   */
  predicate NumeralParts(t: string, sign: string, whole: string, frac: string, point: bool)
  {
    IsSign(sign) && AllDigits(whole) && AllDigits(frac) && (whole != [] || frac != []) &&
    if point then t == sign + (whole + "." + frac) else frac == [] && t == sign + whole
  }

  /** The number a numeral denotes. */
  function NumeralValue(sign: string, whole: string, frac: string): real
    requires AllDigits(whole) && AllDigits(frac)
  {
    if sign == "-" then -DecimalValue(whole, frac) else DecimalValue(whole, frac)
  }

  /** A digit string holds no point. */
  lemma DigitsHaveNoPoint(whole: string)
    requires AllDigits(whole)
    ensures '.' !in whole
  {
  }

  /** The value `ParseUnsigned` gives once its split at the first point is known. */
  lemma ParseUnsignedOfSplit(t: string, whole: string, frac: string)
    requires BeforeFirst(t, ".") == whole
    requires frac == if |whole| < |t| then t[|whole| + 1..] else []
    requires AllDigits(whole) && AllDigits(frac) && (whole != [] || frac != [])
    ensures ParseUnsigned(t) == Some(DecimalValue(whole, frac))
  {
  }

  lemma ParseUnsignedWithPoint(whole: string, frac: string)
    requires AllDigits(whole) && AllDigits(frac) && (whole != [] || frac != [])
    ensures ParseUnsigned(whole + "." + frac) ==
            Some(DecimalValue(whole, frac))
  {
    var t := whole + "." + frac;
    DigitsHaveNoPoint(whole);
    BeforeFirstOfPrefix(whole, ".", frac);
    assert t[|whole| + 1..] == frac;
    ParseUnsignedOfSplit(t, whole, frac);
  }

  lemma ParseUnsignedWhole(whole: string)
    requires AllDigits(whole) && whole != []
    ensures ParseUnsigned(whole) == Some(DecimalValue(whole, []))
  {
    forall i | 0 <= i < |whole|
      ensures !OccursAt(whole, ".", i)
    {
      assert IsDigit(whole[i]);
      NoStartNoOccurrence(whole, ".", i);
    }
    assert BeforeFirst(whole, ".") == whole;
    ParseUnsignedOfSplit(whole, whole, []);
  }

  /** A sign in front of an unsigned numeral negates its value or leaves it as it is. */
  lemma ParseNumeralOfSign(t: string, sign: string, u: string, v: real)
    requires IsSign(sign) && t == sign + u
    requires ParseUnsigned(u) == Some(v)
    ensures ParseNumeral(t) == Some(if sign == "-" then -v else v)
  {
    if sign == "" {
      assert t == u;
      assert IsDigit(u[0]) || u[0] == '.';
    } else {
      assert t[0] == sign[0];
      assert t[1..] == u;
    }
  }

  lemma ParseNumeralWithPoint(sign: string, whole: string, frac: string)
    requires IsSign(sign) && AllDigits(whole) && AllDigits(frac) && (whole != [] || frac != [])
    ensures ParseNumeral(sign + (whole + "." + frac)) == Some(NumeralValue(sign, whole, frac))
  {
    var u := whole + "." + frac;
    ParseUnsignedWithPoint(whole, frac);
    ParseNumeralOfSign(sign + u, sign, u, DecimalValue(whole, frac));
  }

  lemma ParseNumeralWhole(sign: string, whole: string)
    requires IsSign(sign) && AllDigits(whole) && whole != []
    ensures ParseNumeral(sign + whole) == Some(NumeralValue(sign, whole, []))
  {
    ParseUnsignedWhole(whole);
    ParseNumeralOfSign(sign + whole, sign, whole, DecimalValue(whole, []));
  }

  /** Every numeral converts to the number it denotes. */
  lemma ParseNumeralOfParts(t: string, sign: string, whole: string, frac: string, point: bool)
    requires NumeralParts(t, sign, whole, frac, point)
    ensures ParseNumeral(t) == Some(NumeralValue(sign, whole, frac))
  {
    if point {
      ParseNumeralWithPoint(sign, whole, frac);
    } else {
      ParseNumeralWhole(sign, whole);
    }
  }

  /** The digit strings around the first point of an unsigned numeral. */
  lemma UnsignedPartsOf(u: string) returns (whole: string, frac: string, point: bool)
    requires ParseUnsigned(u).Some?
    ensures AllDigits(whole) && AllDigits(frac) && (whole != [] || frac != [])
    ensures if point then u == whole + "." + frac else frac == [] && u == whole
  {
    whole := BeforeFirst(u, ".");
    point := |whole| < |u|;
    frac := if point then u[|whole| + 1..] else [];
    if point {
      assert OccursAt(u, ".", |whole|);
      assert u[|whole|..|whole| + 1] == ".";
      assert u == whole + "." + frac;
    }
  }

  /** Only numerals convert: every text `ParseNumeral` accepts splits into numeral parts. */
  lemma ParsedNumeralHasParts(t: string)
    ensures ParseNumeral(t).Some? ==> exists sign, whole, frac, point :: NumeralParts(t, sign, whole, frac, point)
  {
    if ParseNumeral(t).Some? {
      var sign := if t[0] == '+' || t[0] == '-' then t[..1] else "";
      var u := t[|sign|..];
      assert t == sign + u;
      var whole, frac, point := UnsignedPartsOf(u);
      assert NumeralParts(t, sign, whole, frac, point);
    }
  }

  /**
   * The value numpy gives a token when converting it to float, as Python's `float()` does:
   * the numeral left once `float()` whitespace is stripped from both ends of the token;
   * `None` is the `ValueError` of any other token.
   */
  function ParseNumber(t: string): (r: Option<real>)
    ensures r == ParseNumeral(FloatStrip(t))
  {
    if t != [] && (IsFloatSpace(t[0]) || IsFloatSpace(t[|t| - 1])) then ParseNumeral(FloatStrip(t))
    else
      FloatStripUnpadded(t);
      ParseNumeral(t)
  }

  /** Element-wise conversion of an array of tokens: all of them convert, or none of the array does. */
  function ConvertAll(tokens: seq<string>, convert: string -> Option<real>): (r: Option<seq<real>>)
    ensures r.Some? <==> forall i :: 0 <= i < |tokens| ==> convert(tokens[i]).Some?
    ensures r.Some? ==> |r.value| == |tokens| &&
                        forall i :: 0 <= i < |tokens| ==> convert(tokens[i]) == Some(r.value[i])
  {
    if forall i :: 0 <= i < |tokens| ==> convert(tokens[i]).Some? then
      Some(seq(|tokens|, i requires 0 <= i < |tokens| => convert(tokens[i]).value))
    else None
  }

  /** Conversion is element-wise: two token arrays that convert convert together. */
  lemma ConvertAllAppend(a: seq<string>, b: seq<string>, convert: string -> Option<real>, va: seq<real>, vb: seq<real>)
    requires ConvertAll(a, convert) == Some(va) && ConvertAll(b, convert) == Some(vb)
    ensures ConvertAll(a + b, convert) == Some(va + vb)
  {
    var ab := a + b;
    assert forall i :: 0 <= i < |ab| ==> convert(ab[i]).Some? by {
      forall i | 0 <= i < |ab|
        ensures convert(ab[i]).Some?
      {
        if i < |a| {
          assert ab[i] == a[i];
        } else {
          assert ab[i] == b[i - |a|];
        }
      }
    }
    var vs := ConvertAll(ab, convert).value;
    forall i | 0 <= i < |vs|
      ensures vs[i] == (va + vb)[i]
    {
      if i < |a| {
        assert ab[i] == a[i];
      } else {
        assert ab[i] == b[i - |a|];
      }
    }
    assert vs == va + vb;
  }

  /** `astype(np.float32)` on the token array: all tokens convert, or a `ValueError`. */
  function ParseAll(tokens: seq<string>): (r: Option<seq<real>>)
    ensures r.Some? <==> forall i :: 0 <= i < |tokens| ==> ParseNumber(tokens[i]).Some?
    ensures r.Some? ==> |r.value| == |tokens| &&
                        forall i :: 0 <= i < |tokens| ==> ParseNumber(tokens[i]) == Some(r.value[i])
  {
    ConvertAll(tokens, ParseNumber)
  }

  /** `f.read().replace("\n", " ").strip().split(" ")`. */
  function Tokens(content: string): (tokens: seq<string>)
    ensures |tokens| >= 1
    ensures forall k :: 0 <= k < |tokens| ==> ' ' !in tokens[k]
    ensures JoinWith(tokens, ' ') == Strip(ReplaceAll(content, "\n", " "))
  {
    Split(Strip(ReplaceAll(content, "\n", " ")), ' ')
  }

  /** `.reshape(-1, 5)` followed by `[:, 1:]`: groups of five numbers, the class number dropped. */
  function BoxRows(nums: seq<real>): (boxes: seq<Box>)
    requires |nums| % 5 == 0
    ensures |boxes| * 5 == |nums|
    ensures forall b :: 0 <= b < |boxes| ==>
              boxes[b] == Box(nums[5 * b + 1], nums[5 * b + 2], nums[5 * b + 3], nums[5 * b + 4])
  {
    var n := |nums| / 5;
    seq(n, b requires 0 <= b < n => Box(nums[5 * b + 1], nums[5 * b + 2], nums[5 * b + 3], nums[5 * b + 4]))
  }

  /**
   * The boxes of the tokens of an annotation file, or `None` for the `ValueError` cases:
   * a token that is not a number (an empty file gives the single token `""`), or a number
   * of tokens that is not a multiple of five.
   */
  function ParseTokens(tokens: seq<string>): (r: Option<seq<Box>>)
    ensures r.Some? ==> |r.value| * 5 == |tokens|
  {
    match ParseAll(tokens)
    case None => None
    case Some(nums) => if |nums| % 5 != 0 then None else Some(BoxRows(nums))
  }

  /** The boxes of an annotation file's content. */
  function ParseAnnotation(content: string): (r: Option<seq<Box>>)
    ensures r.Some? ==> |r.value| * 5 == |Tokens(content)|
  {
    ParseTokens(Tokens(content))
  }

  /** Tokens parse exactly when every one is a number and there are a multiple of five of them. */
  lemma ParseTokensAccepts(tokens: seq<string>)
    ensures ParseTokens(tokens).Some? <==>
              (forall i :: 0 <= i < |tokens| ==> ParseNumber(tokens[i]).Some?) && |tokens| % 5 == 0
  {
  }

  /**
   * Parsed tokens give one box per group of five tokens, holding the numbers of tokens 1
   * to 4 of its group; token 0, the class, is dropped.
   */
  lemma ParsedTokenValues(tokens: seq<string>)
    requires ParseTokens(tokens).Some?
    ensures var boxes := ParseTokens(tokens).value;
            |boxes| * 5 == |tokens| &&
            forall b :: 0 <= b < |boxes| ==>
              ParseNumber(tokens[5 * b + 1]) == Some(boxes[b].c0) &&
              ParseNumber(tokens[5 * b + 2]) == Some(boxes[b].c1) &&
              ParseNumber(tokens[5 * b + 3]) == Some(boxes[b].c2) &&
              ParseNumber(tokens[5 * b + 4]) == Some(boxes[b].c3)
  {
    BoxRowsOfTokens(tokens, ParseAll(tokens).value);
  }

  /**
   * An annotation parses exactly when every token is a number and there are a multiple of
   * five of them.
   */
  lemma ParseAnnotationAccepts(content: string)
    ensures ParseAnnotation(content).Some? <==>
              (forall i :: 0 <= i < |Tokens(content)| ==> ParseNumber(Tokens(content)[i]).Some?) &&
              |Tokens(content)| % 5 == 0
  {
    ParseTokensAccepts(Tokens(content));
  }

  /** A parsed annotation holds, box by box, the numbers of tokens 1 to 4 of each group of five. */
  lemma ParsedBoxValues(content: string)
    ensures ParseAnnotation(content).Some? ==>
            var boxes := ParseAnnotation(content).value;
            |boxes| * 5 == |Tokens(content)| &&
            forall b :: 0 <= b < |boxes| ==>
              ParseNumber(Tokens(content)[5 * b + 1]) == Some(boxes[b].c0) &&
              ParseNumber(Tokens(content)[5 * b + 2]) == Some(boxes[b].c1) &&
              ParseNumber(Tokens(content)[5 * b + 3]) == Some(boxes[b].c2) &&
              ParseNumber(Tokens(content)[5 * b + 4]) == Some(boxes[b].c3)
  {
    if ParseAnnotation(content).Some? {
      ParsedTokenValues(Tokens(content));
    }
  }

  /** The boxes built from converted tokens hold the values of tokens 1 to 4 of each group of five. */
  lemma BoxRowsOfTokens(tokens: seq<string>, nums: seq<real>)
    requires |nums| == |tokens| && |nums| % 5 == 0
    requires forall i :: 0 <= i < |tokens| ==> ParseNumber(tokens[i]) == Some(nums[i])
    ensures forall b :: 0 <= b < |BoxRows(nums)| ==>
              ParseNumber(tokens[5 * b + 1]) == Some(BoxRows(nums)[b].c0) &&
              ParseNumber(tokens[5 * b + 2]) == Some(BoxRows(nums)[b].c1) &&
              ParseNumber(tokens[5 * b + 3]) == Some(BoxRows(nums)[b].c2) &&
              ParseNumber(tokens[5 * b + 4]) == Some(BoxRows(nums)[b].c3)
  {
  }

  /** Replacing newlines by spaces in a text of whitespace leaves only whitespace. */
  lemma {:induction false} ReplaceNewlinesInBlank(s: string)
    requires AllSpace(s)
    ensures AllSpace(ReplaceAll(s, "\n", " "))
    decreases |s|
  {
    if |s| >= 1 {
      if s[..1] == "\n" {
        ReplaceNewlinesInBlank(s[1..]);
      } else {
        ReplaceNewlinesInBlank(s[1..]);
        assert IsSpace(s[0]);
      }
    }
  }

  /** An empty file, or one holding only whitespace, raises `ValueError`: no boxes. */
  lemma BlankAnnotationIsRejected(content: string)
    requires AllSpace(content)
    ensures ParseAnnotation(content) == None
  {
    ReplaceNewlinesInBlank(content);
    var stripped := Strip(ReplaceAll(content, "\n", " "));
    assert stripped == [];
    assert Tokens(content) == [[]];
    assert ParseNumber([]) == None;
  }

  /** A token that is not a number raises `ValueError`: no boxes. */
  lemma NonNumericTokenIsRejected(content: string, i: nat)
    ensures i < |Tokens(content)| && ParseNumber(Tokens(content)[i]) == None ==> ParseAnnotation(content) == None
  {
    ParseAnnotationAccepts(content);
  }

  /** A number of tokens that is not a multiple of five raises `ValueError` in `reshape`: no boxes. */
  lemma TokenCountIsChecked(content: string)
    requires |Tokens(content)| % 5 != 0
    ensures ParseAnnotation(content) == None
  {
    ParseAnnotationAccepts(content);
  }

  /**
   * A token holding a character that is neither `float()` whitespace nor a character of a
   * plain decimal numeral is not a number.
   */
  lemma ForeignCharacterIsNotNumber(t: string, i: nat)
    requires i < |t| && !IsNumeralChar(t[i]) && !IsFloatSpace(t[i])
    ensures ParseNumber(t) == None
  {
    FloatStripKeeps(t, i);
  }

  /**
   * The separator U+001C is whitespace to `strip()` but not to `float()`, so a token that
   * starts with it is not a number.
   */
  lemma SeparatorIsNotStripped()
    ensures IsSpace('\U{1C}') && !IsFloatSpace('\U{1C}')
    ensures ParseNumber("\U{1C}1") == None
  {
    ForeignCharacterIsNotNumber("\U{1C}1", 0);
  }

  /**
   * The boxes painted into the mask: the parsed rows converted with `yolo2voc`, or none when
   * the content raised `ValueError`.
   */
  function BoxesOfParse(height: nat, width: nat, parsed: Option<seq<Box>>): (boxes: seq<Box>)
    ensures parsed == None ==> boxes == []
    ensures parsed.Some? ==>
              |boxes| == |parsed.value| &&
              forall b :: 0 <= b < |boxes| ==> boxes[b] == VocRow(height, width, parsed.value[b])
  {
    if parsed.None? then [] else VocRows(height, width, parsed.value)
  }

  /** The mask boxes of an annotation file's content. */
  function MaskBoxes(height: nat, width: nat, content: string): seq<Box>
  {
    BoxesOfParse(height, width, ParseAnnotation(content))
  }

  /** The mask boxes of a parsed annotation are its rows converted by `yolo2voc`. */
  lemma MaskBoxesOfParsed(height: nat, width: nat, content: string, rows: seq<Box>)
    ensures ParseAnnotation(content) == Some(rows) ==> MaskBoxes(height, width, content) == VocRows(height, width, rows)
  {
  }

  /** `np.array(...)` of the parsed rows: an N x 4 array holding the boxes row by row. */
  method BoxArray(boxes: seq<Box>) returns (a: array2<real>)
    ensures fresh(a) && a.Length0 == |boxes| && a.Length1 == 4
    ensures RowsOf(a) == boxes
  {
    a := new real[|boxes|, 4]((i, j) =>
      if 0 <= i < |boxes| then
        (if j == 0 then boxes[i].c0 else if j == 1 then boxes[i].c1 else if j == 2 then boxes[i].c2 else boxes[i].c3)
      else 0.0);
    assert forall i :: 0 <= i < |boxes| ==> RowOf(a, i) == boxes[i];
  }

  /** The one-line annotation of a single box of class 0 centred on the image. */
  const SingleBox := "0 0.5 0.5 0.2 0.2"

  lemma SingleBoxHasNoNewline()
    ensures ReplaceAll(SingleBox, "\n", " ") == SingleBox
  {
    forall i | 0 <= i < |SingleBox|
      ensures !OccursAt(SingleBox, "\n", i)
    {
      NoStartNoOccurrence(SingleBox, "\n", i);
    }
    ReplaceAllAbsent(SingleBox, "\n", " ");
  }

  lemma SingleBoxIsStripped()
    ensures Strip(SingleBox) == SingleBox
  {
    assert !IsSpace(SingleBox[0]);
    assert TrimLeft(SingleBox) == SingleBox;
    assert !IsSpace(SingleBox[|SingleBox| - 1]);
    assert TrimRight(SingleBox) == SingleBox;
  }

  lemma SingleBoxJoin()
    ensures JoinWith(["0", "0.5", "0.5", "0.2", "0.2"], ' ') == SingleBox
  {
    var parts := ["0", "0.5", "0.5", "0.2", "0.2"];
    assert parts[1..] == ["0.5", "0.5", "0.2", "0.2"];
    assert parts[1..][1..] == ["0.5", "0.2", "0.2"];
    assert parts[1..][1..][1..] == ["0.2", "0.2"];
    assert parts[1..][1..][1..][1..] == ["0.2"];
  }

  lemma SingleBoxParts()
    ensures Split(SingleBox, ' ') == ["0", "0.5", "0.5", "0.2", "0.2"]
  {
    var parts := ["0", "0.5", "0.5", "0.2", "0.2"];
    assert forall k :: 0 <= k < |parts| ==> parts[k] == "0" || parts[k] == "0.5" || parts[k] == "0.2";
    SingleBoxJoin();
    SplitJoinWith(parts, ' ');
  }

  lemma ExampleTokens()
    ensures Tokens(SingleBox) == ["0", "0.5", "0.5", "0.2", "0.2"]
  {
    SingleBoxHasNoNewline();
    SingleBoxIsStripped();
    SingleBoxParts();
  }

  lemma ExampleNumbers()
    ensures ParseNumber("0") == Some(0.0)
    ensures ParseNumber("0.5") == Some(0.5)
    ensures ParseNumber("0.2") == Some(0.2)
  {
    ExampleNumerals();
    ParseNumberOfNumeral("0");
    ParseNumberOfNumeral("0.5");
    ParseNumberOfNumeral("0.2");
  }

  /** A token that starts and ends with a numeral character is converted without stripping. */
  lemma ParseNumberOfNumeral(t: string)
    requires t != [] && IsNumeralChar(t[0]) && IsNumeralChar(t[|t| - 1])
    ensures ParseNumber(t) == ParseNumeral(t)
  {
    NumeralCharIsNotSpace(t[0]);
    NumeralCharIsNotSpace(t[|t| - 1]);
  }

  lemma NumeralCharIsNotSpace(c: char)
    requires IsNumeralChar(c)
    ensures !IsSpace(c)
  {
  }

  lemma ExampleNumerals()
    ensures ParseNumeral("0") == Some(0.0)
    ensures ParseNumeral("0.5") == Some(0.5)
    ensures ParseNumeral("0.2") == Some(0.2)
  {
    BeforeFirstOfPrefix("0", ".", "5");
    BeforeFirstOfPrefix("0", ".", "2");
    assert "0.5" == "0" + "." + "5" && "0.2" == "0" + "." + "2";
    assert "0.5"[2..] == "5" && "0.2"[2..] == "2";
    assert DigitsValue("0") == 0;
  }

  /** A single token converts as the number it denotes. */
  lemma ConvertSingle(t: string, v: real, convert: string -> Option<real>)
    requires convert(t) == Some(v)
    ensures ConvertAll([t], convert) == Some([v])
  {
    var ts := [t];
    assert ts[0] == t;
    assert forall i :: 0 <= i < |ts| ==> convert(ts[i]).Some?;
    var vs := ConvertAll(ts, convert).value;
    assert |vs| == 1 && vs[0] == v;
    assert vs == [v];
  }

  /** Five tokens that each convert convert together, in order. */
  lemma ConvertFive(t0: string, t1: string, t2: string, t3: string, t4: string,
                    v0: real, v1: real, v2: real, v3: real, v4: real, convert: string -> Option<real>)
    requires ConvertAll([t0], convert) == Some([v0]) && ConvertAll([t1], convert) == Some([v1])
    requires ConvertAll([t2], convert) == Some([v2]) && ConvertAll([t3], convert) == Some([v3])
    requires ConvertAll([t4], convert) == Some([v4])
    ensures ConvertAll([t0, t1, t2, t3, t4], convert) == Some([v0, v1, v2, v3, v4])
  {
    ConvertAllAppend([t3], [t4], convert, [v3], [v4]);
    assert [t3] + [t4] == [t3, t4] && [v3] + [v4] == [v3, v4];
    ConvertAllAppend([t2], [t3, t4], convert, [v2], [v3, v4]);
    assert [t2] + [t3, t4] == [t2, t3, t4] && [v2] + [v3, v4] == [v2, v3, v4];
    ConvertAllAppend([t1], [t2, t3, t4], convert, [v1], [v2, v3, v4]);
    assert [t1] + [t2, t3, t4] == [t1, t2, t3, t4] && [v1] + [v2, v3, v4] == [v1, v2, v3, v4];
    ConvertAllAppend([t0], [t1, t2, t3, t4], convert, [v0], [v1, v2, v3, v4]);
    assert [t0] + [t1, t2, t3, t4] == [t0, t1, t2, t3, t4];
    assert [v0] + [v1, v2, v3, v4] == [v0, v1, v2, v3, v4];
  }

  lemma ExampleNumberRow()
    ensures ParseAll(["0", "0.5", "0.5", "0.2", "0.2"]) == Some([0.0, 0.5, 0.5, 0.2, 0.2])
  {
    ExampleNumbers();
    ConvertSingle("0", 0.0, ParseNumber);
    ConvertSingle("0.5", 0.5, ParseNumber);
    ConvertSingle("0.2", 0.2, ParseNumber);
    ConvertFive("0", "0.5", "0.5", "0.2", "0.2", 0.0, 0.5, 0.5, 0.2, 0.2, ParseNumber);
  }

  lemma ExampleReshape()
    ensures BoxRows([0.0, 0.5, 0.5, 0.2, 0.2]) == [Box(0.5, 0.5, 0.2, 0.2)]
  {
  }

  /** The annotation `0 0.5 0.5 0.2 0.2` holds one box of class 0. */
  lemma ExampleAnnotation()
    ensures ParseAnnotation(SingleBox) == Some([Box(0.5, 0.5, 0.2, 0.2)])
  {
    ExampleTokens();
    ExampleTokenBoxes();
  }

  lemma ExampleTokenBoxes()
    ensures ParseTokens(["0", "0.5", "0.5", "0.2", "0.2"]) == Some([Box(0.5, 0.5, 0.2, 0.2)])
  {
    ExampleNumberRow();
    ExampleReshape();
  }

  /** The box with corners (40, 40) and (60, 60) covers rows and columns 40 to 59 of a 100 x 100 mask. */
  lemma CentreBoxRegion(y: int, x: int)
    ensures Covered([Box(40.0, 40.0, 60.0, 60.0)], 100, 100, y, x) <==> 40 <= y < 60 && 40 <= x < 60
  {
    var v := Box(40.0, 40.0, 60.0, 60.0);
    assert Trunc(40.0) == 40 && Trunc(60.0) == 60;
    assert Covered([v], 100, 100, y, x) <==> InBox(v, 100, 100, y, x) by {
      assert [v][0] == v;
    }
  }

  lemma ExampleMaskRows()
    ensures MaskBoxes(100, 100, SingleBox) == VocRows(100, 100, [Box(0.5, 0.5, 0.2, 0.2)])
  {
    ExampleAnnotation();
    MaskBoxesOfParsed(100, 100, SingleBox, [Box(0.5, 0.5, 0.2, 0.2)]);
  }

  lemma ExampleVocRow()
    ensures VocRows(100, 100, [Box(0.5, 0.5, 0.2, 0.2)]) == [Box(40.0, 40.0, 60.0, 60.0)]
  {
    assert VocRow(100, 100, Box(0.5, 0.5, 0.2, 0.2)) == Box(40.0, 40.0, 60.0, 60.0);
  }

  /** `yolo2voc` turns the centred box of a 100 x 100 image into corners (40, 40) and (60, 60). */
  lemma ExampleMaskBoxes()
    ensures MaskBoxes(100, 100, SingleBox) == [Box(40.0, 40.0, 60.0, 60.0)]
  {
    ExampleMaskRows();
    ExampleVocRow();
  }

  /**
   * The file `0 0.5 0.5 0.2 0.2` on a 100 x 100 image, in exact arithmetic: one box with
   * corners (40, 40) and (60, 60), whose mask is the 20 x 20 block of rows and columns 40
   * to 59.
   */
  lemma SingleBoxExample(y: int, x: int)
    ensures MaskBoxes(100, 100, SingleBox) == [Box(40.0, 40.0, 60.0, 60.0)]
    ensures Covered(MaskBoxes(100, 100, SingleBox), 100, 100, y, x) <==> 40 <= y < 60 && 40 <= x < 60
  {
    ExampleMaskBoxes();
    CentreBoxRegion(y, x);
  }

  /** The `float32` value of the token `0.2`: 13421773 / 2^26, the single-precision number nearest to it. */
  const Float32OfPoint2: real := 0.20000000298023223876953125

  /**
   * With the `float32` value of its `0.2` tokens, the box of `0 0.5 0.5 0.2 0.2` on a
   * 100 x 100 image has corners just outside (40, 40) and (60, 60); after the truncation of
   * `int()` the mask is the 21 x 21 block of rows and columns 39 to 59.
   */
  lemma Float32SingleBoxRegion(y: int, x: int)
    ensures VocRows(100, 100, [Box(0.5, 0.5, Float32OfPoint2, Float32OfPoint2)]) ==
            [Box(39.9999998509883880615234375, 39.9999998509883880615234375,
                 60.0000001490116119384765625, 60.0000001490116119384765625)]
    ensures Covered(VocRows(100, 100, [Box(0.5, 0.5, Float32OfPoint2, Float32OfPoint2)]), 100, 100, y, x) <==>
            39 <= y < 60 && 39 <= x < 60
  {
    var v := Box(39.9999998509883880615234375, 39.9999998509883880615234375,
                 60.0000001490116119384765625, 60.0000001490116119384765625);
    assert VocRow(100, 100, Box(0.5, 0.5, Float32OfPoint2, Float32OfPoint2)) == v;
    assert Trunc(v.c0) == 39 && Trunc(v.c2) == 60;
    assert Covered([v], 100, 100, y, x) <==> InBox(v, 100, 100, y, x) by {
      assert [v][0] == v;
    }
  }
}
