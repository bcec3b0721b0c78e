/** The derivative-image route `GET /item/image/:dimensions/:quality/:filename`: it reads a width
    and a height from the dimensions token, checks the quality, checks that the file is stored,
    and answers with the file resized and re-encoded as JPEG. The resize itself is a foreign image
    library; here it is a function that gives the encoded bytes or fails. */
module Derivative {
  import opened JsText
  import opened JsNumbers
  import opened Http

  /** Width and height as `Number` reads them, `None` standing for `NaN`. Nothing checks them:
      `NaN`, zero and negative values go to the resize as they are. */
  datatype Dimensions = Dimensions(width: Option<int>, height: Option<int>)

  /** The dimensions token is split on the regular expression `/x|X/`. */
  const Delimiters: set<char> := {'x', 'X'}

  /** The width and height a dimensions token stands for: with a delimiter, the numbers before
      and after the first one (later parts are ignored); without one, the whole token for both. */
  function DecodeDimensions(token: string): Dimensions
  {
    if 'x' in token || 'X' in token then
      CountZero(token, Delimiters);
      var parts := Split(token, Delimiters);
      Dimensions(NumberOf(parts[0]), NumberOf(parts[1]))
    else
      Dimensions(NumberOf(token), NumberOf(token))
  }

  /** The JPEG quality the route accepts: `parseInt(token, 10)` when it is a number from 1 to
      100, both included. */
  function AcceptedQuality(token: string): (q: Option<int>)
    ensures q.Some? ==> 1 <= q.value <= 100
  {
    var n := ParseInt(token, true);
    if n.Some? && 1 <= n.value <= 100 then n else None
  }

  /** `fs.existsSync(path.join(IMAGE_DIR, filename))`, the image directory given as the set of
      names stored in it: `.` and `..` join to the directory itself and to its parent, which
      exist too. */
  predicate Exists(stored: set<string>, filename: string)
  {
    filename in stored || filename == "." || filename == ".."
  }

  /** A call of the image library: the stored file, the size asked for, the JPEG quality. */
  datatype Resize = Resize(source: string, width: Option<int>, height: Option<int>, quality: int)

  /** What the route does with a request, before any bytes are produced. */
  datatype Plan = BadQuality | Missing | Transform(call: Resize)

  function Decide(stored: set<string>, dimensions: string, quality: string, filename: string): Plan
  {
    var size := DecodeDimensions(dimensions);
    var q := AcceptedQuality(quality);
    if q.None? then BadQuality
    else if !Exists(stored, filename) then Missing
    else Transform(Resize(filename, size.width, size.height, q.value))
  }

  const QualityMessage := "Invalid quality percentage. It should be between 1 and 100."

  /** The reply to a plan, given what the image library does with a call (`None` when it
      throws, which the route's `catch` turns into a 500). */
  function Answer(plan: Plan, sharp: Resize -> Option<seq<bv8>>): Reply
  {
    match plan
    case BadQuality => Reply(400, map[], Text(QualityMessage))
    case Missing => Reply(404, map[], Text("Image not found"))
    case Transform(call) =>
      var image := sharp(call);
      if image.None? then Reply(500, map[], Text("Internal Server Error"))
      else Reply(200, map["Content-Type" := "image/jpeg"], Bytes(image.value))
  }

  /** The route handler: checks in order with early returns, then the resize. */
  method ServeDerivative(res: Response, stored: set<string>, dimensions: string, quality: string,
                         filename: string, sharp: Resize -> Option<seq<bv8>>)
    requires res.Untouched()
    modifies res
    ensures var r := Answer(Decide(stored, dimensions, quality, filename), sharp);
            res.statusCode == r.status && res.headers == r.headers && res.sent == Some(r.body)
  {
    var size := DecodeDimensions(dimensions);
    var percentage := ParseInt(quality, true);
    ghost var plan := Decide(stored, dimensions, quality, filename);
    if percentage.None? || percentage.value < 1 || percentage.value > 100 {
      assert plan == BadQuality;
      res.Status(400);
      res.Send(Text(QualityMessage));
      return;
    }

    assert AcceptedQuality(quality) == percentage;
    if !Exists(stored, filename) {
      assert plan == Missing;
      res.Status(404);
      res.Send(Text("Image not found"));
      return;
    }

    var image := sharp(Resize(filename, size.width, size.height, percentage.value));
    assert plan == Transform(Resize(filename, size.width, size.height, percentage.value));
    if image.None? {
      res.Status(500);
      res.Send(Text("Internal Server Error"));
      return;
    }
    res.Set("Content-Type", "image/jpeg");
    res.Send(Bytes(image.value));
  }

  /** With a delimiter at index `i` (the first) and the next one at `j` (or none, `j` being the
      end), the width is the number before `i` and the height the number between `i` and `j`. */
  lemma DimensionsAtFirstDelimiter(token: string, i: nat, j: nat)
    requires i < j <= |token| && token[i] in Delimiters
    requires forall k :: 0 <= k < i ==> token[k] !in Delimiters
    requires forall k :: i < k < j ==> token[k] !in Delimiters
    requires j < |token| ==> token[j] in Delimiters
    ensures DecodeDimensions(token) == Dimensions(NumberOf(token[..i]), NumberOf(token[i + 1..j]))
  {
    assert 'x' in token || 'X' in token by {
      assert token[i] == 'x' || token[i] == 'X';
    }
    SplitAtFirst(token, Delimiters, i);
    var rest := token[i + 1..];
    if j < |token| {
      SplitAtFirst(rest, Delimiters, j - i - 1);
      assert rest[..j - i - 1] == token[i + 1..j];
    } else {
      SplitNone(rest, Delimiters);
      assert rest == token[i + 1..j];
    }
  }

  /** Two runs of digits around a delimiter are the width and the height. */
  lemma DimensionsOfDigits(a: string, b: string, delimiter: char)
    requires AllRadixDigits(a, 10) && AllRadixDigits(b, 10) && delimiter in Delimiters
    ensures DecodeDimensions(a + [delimiter] + b) == Dimensions(NumberOf(a), NumberOf(b))
  {
    var token := a + [delimiter] + b;
    forall k | 0 <= k < |a| ensures token[k] !in Delimiters {
      assert token[k] == a[k] && IsRadixDigit(a[k], 10);
    }
    forall k | |a| < k < |token| ensures token[k] !in Delimiters {
      assert token[k] == b[k - |a| - 1] && IsRadixDigit(b[k - |a| - 1], 10);
    }
    assert token[..|a|] == a;
    assert token[|a| + 1..|token|] == b;
    DimensionsAtFirstDelimiter(token, |a|, |token|);
  }

  /** `WxH` and `WXH` written in decimal read back as width `W` and height `H`. */
  lemma DimensionsRoundTrip(w: nat, h: nat, delimiter: char)
    requires delimiter in Delimiters
    ensures DecodeDimensions(Decimal(w) + [delimiter] + Decimal(h)) == Dimensions(Some(w), Some(h))
  {
    DimensionsOfDigits(Decimal(w), Decimal(h), delimiter);
    NumberOfToString(w);
    NumberOfToString(h);
  }

  /** A lone `N` written in decimal reads back as `N` by `N`. */
  lemma DimensionsSquare(n: nat)
    ensures DecodeDimensions(Decimal(n)) == Dimensions(Some(n), Some(n))
  {
    var a := Decimal(n);
    assert 'x' !in a && 'X' !in a by {
      forall k | 0 <= k < |a| ensures a[k] != 'x' && a[k] != 'X' {
        assert IsRadixDigit(a[k], 10);
      }
    }
    NumberOfToString(n);
  }

  /** A quality written as a whole number `n` is accepted exactly when `1 <= n <= 100`. */
  lemma QualityRange(n: int)
    ensures AcceptedQuality(IntToString(n)) == (if 1 <= n <= 100 then Some(n) else None)
  {
    ParseIntToString(n, true);
  }

  /** `parseInt` reads only the leading digits: `50abc` is quality 50, `5.9` is quality 5. */
  lemma QualityStopsAtNonDigit(n: nat, rest: string)
    requires rest == [] || !IsRadixDigit(rest[0], 10)
    ensures AcceptedQuality(Decimal(n) + rest) == (if 1 <= n <= 100 then Some(n) else None)
  {
    ParseDecimalPrefix(n, rest, true);
  }

  /** A token with no digit after the white space and sign (`abc`, empty, `-x`) is refused. */
  lemma QualityWithoutDigits(token: string)
    requires var t := TrimStart(token);
             t == [] || (!IsRadixDigit(t[0], 10) && t[0] != '-' && t[0] != '+') ||
             ((t[0] == '-' || t[0] == '+') && (|t| == 1 || !IsRadixDigit(t[1], 10)))
    ensures AcceptedQuality(token) == None
  {
  }

  /** The checks run in a fixed order. A bad quality is a 400 whatever the store holds; with a
      good quality, a missing file is a 404; in both cases the image library is never called,
      so the reply is the same whatever it would do. Only a good quality and a stored file reach
      it, with the decoded size and the accepted quality, and then the reply is its JPEG or a
      500. */
  lemma CheckOrder(stored: set<string>, dimensions: string, quality: string, filename: string,
                   sharp: Resize -> Option<seq<bv8>>, other: Resize -> Option<seq<bv8>>)
    ensures var r := Answer(Decide(stored, dimensions, quality, filename), sharp);
            (r.status == 400 <==> AcceptedQuality(quality).None?) &&
            (r.status == 404 <==> AcceptedQuality(quality).Some? && !Exists(stored, filename))
    ensures AcceptedQuality(quality).None? || !Exists(stored, filename) ==>
            Answer(Decide(stored, dimensions, quality, filename), sharp) ==
            Answer(Decide(stored, dimensions, quality, filename), other)
    ensures AcceptedQuality(quality).Some? && Exists(stored, filename) ==>
            var size := DecodeDimensions(dimensions);
            var call := Resize(filename, size.width, size.height, AcceptedQuality(quality).value);
            var r := Answer(Decide(stored, dimensions, quality, filename), sharp);
            (r.status == 200 <==> sharp(call).Some?) &&
            (r.status == 200 ==> r.headers == map["Content-Type" := "image/jpeg"] && r.body == Bytes(sharp(call).value)) &&
            (r.status != 200 ==> r.status == 500)
  {
  }

  /** Nothing checks the dimensions: `150x` asks for height 0, a word such as `abc` for `NaN` by
      `NaN`, and with a good quality and a stored file both reach the image library. */
  lemma DimensionsUnchecked(stored: set<string>, filename: string, w: nat, word: string, q: int)
    requires filename in stored && 1 <= q <= 100
    requires word != [] && 'a' <= word[0] <= 'z' && 'a' <= word[|word| - 1] <= 'z'
    requires 'x' !in word && 'X' !in word
    ensures DecodeDimensions(Decimal(w) + "x") == Dimensions(Some(w), Some(0))
    ensures DecodeDimensions(word) == Dimensions(None, None)
    ensures Decide(stored, Decimal(w) + "x", IntToString(q), filename) == Transform(Resize(filename, Some(w), Some(0), q))
    ensures Decide(stored, word, IntToString(q), filename) == Transform(Resize(filename, None, None, q))
  {
    MissingHeight(w);
    NumberOfWord(word);
    QualityRange(q);
    DecideStored(stored, Decimal(w) + "x", IntToString(q), filename);
    DecideStored(stored, word, IntToString(q), filename);
  }

  /** A number followed by a delimiter and nothing else has height `Number("")`, which is 0. */
  lemma MissingHeight(w: nat)
    ensures DecodeDimensions(Decimal(w) + "x") == Dimensions(Some(w), Some(0))
  {
    assert Decimal(w) + "x" == Decimal(w) + ['x'] + "";
    DimensionsOfDigits(Decimal(w), "", 'x');
    NumberOfToString(w);
    assert NumberOf("") == Some(0);
  }

  /** A good quality and a stored file reach the image library with the decoded size. */
  lemma DecideStored(stored: set<string>, dimensions: string, quality: string, filename: string)
    requires AcceptedQuality(quality).Some? && filename in stored
    ensures var size := DecodeDimensions(dimensions);
            Decide(stored, dimensions, quality, filename) ==
            Transform(Resize(filename, size.width, size.height, AcceptedQuality(quality).value))
  {
  }
}
