/** Image uploads, `POST /item/image/upload/:item_id`: multer's file filter and size limit, the
    name a stored file is given, and the handler that records the attachment. The clock and the
    random number that make the name unique are parameters. */
module Upload {
  import opened JsText
  import opened JsNumbers
  import opened JsValues
  import opened NodePath
  import opened Http
  import opened Sql
  import opened Derivative
  import opened Attachments

  /** The MIME types the file filter lets through. */
  const AllowedTypes: seq<string> := ["image/jpeg", "image/png", "image/gif"]

  /** multer's `fileSize` limit, in bytes: 5 MiB. */
  const MaxFileSize: nat := 5 * 1024 * 1024

  const TypeMessage := "Only JPEG, PNG, and GIF images are allowed"

  /** multer's message for a file over the limit. */
  const SizeMessage := "File too large"

  /** The `image` field of a multipart request: the client's file name, its declared MIME type
      and the number of bytes it holds. */
  datatype UploadedFile = UploadedFile(originalname: string, mimetype: string, size: nat)

  /** What multer does with a file: the filter refuses it with an error, the limit stops it, or
      it is written to the image directory under a new name. */
  datatype Ingest = Refused(message: string) | TooLarge | Stored(name: string)

  /** `Date.now() + "-" + Math.round(Math.random() * 1e9) + path.extname(originalname)`, the
      clock reading and the rounded random number given. */
  function StorageName(now: nat, random: nat, originalname: string): string
  {
    Decimal(now) + "-" + Decimal(random) + ExtName(originalname)
  }

  /** The filter runs first, on the declared type; the size limit applies to what passes it. */
  function Accept(file: UploadedFile, now: nat, random: nat): (r: Ingest)
    ensures r.Stored? <==> (file.mimetype == "image/jpeg" || file.mimetype == "image/png" ||
                            file.mimetype == "image/gif") && file.size <= 5242880
    ensures r.Refused? <==> !(file.mimetype == "image/jpeg" || file.mimetype == "image/png" ||
                              file.mimetype == "image/gif")
    ensures r.Refused? ==> r.message == TypeMessage
    ensures r.Stored? ==> r.name == StorageName(now, random, file.originalname)
  {
    if file.mimetype !in AllowedTypes then Refused(TypeMessage)
    else if file.size > MaxFileSize then TooLarge
    else Stored(StorageName(now, random, file.originalname))
  }

  /** A reading of a stored name: the clock digits, a `-`, the random digits, then an extension
      that is empty or starts with `.`. */
  function ParseStorageName(name: string): Option<(nat, nat, string)>
  {
    var now := DigitPrefix(name, 10);
    if now == [] || |now| == |name| || name[|now|] != '-' then None
    else ParseRandomAndExtension(DigitsValue(now, 10), name[|now| + 1..])
  }

  /** The part of a stored name after the `-`, the clock reading being `now`. */
  function ParseRandomAndExtension(now: nat, rest: string): Option<(nat, nat, string)>
  {
    var random := DigitPrefix(rest, 10);
    var ext := rest[|random|..];
    if random == [] || (ext != [] && ext[0] != '.') then None
    else Some((now, DigitsValue(random, 10), ext))
  }

  /** After the clock reading and its `-`: the random number's digits, then the extension. */
  lemma ParseRandomPart(now: nat, b: string, e: string)
    requires b != [] && AllRadixDigits(b, 10)
    requires e == [] || e[0] == '.'
    ensures ParseRandomAndExtension(now, b + e) == Some((now, DigitsValue(b, 10), e))
  {
    DigitPrefixOfDecimal(b, e, 10);
    assert (b + e)[|b|..] == e;
  }

  /** The digits before the first `-` are the clock reading; the rest is read on from after it. */
  lemma ParseClockPart(a: string, rest: string)
    requires a != [] && AllRadixDigits(a, 10)
    ensures ParseStorageName(a + "-" + rest) == ParseRandomAndExtension(DigitsValue(a, 10), rest)
  {
    var name := a + "-" + rest;
    assert name == a + ("-" + rest);
    DigitPrefixOfDecimal(a, "-" + rest, 10);
    assert name[|a|] == '-';
    assert name[|a| + 1..] == rest;
  }

  /** A stored name reads back as the clock reading, the random number and the extension of the
      client's file name it was made from. */
  lemma StorageNameRoundTrip(now: nat, random: nat, originalname: string)
    ensures ParseStorageName(StorageName(now, random, originalname)) == Some((now, random, ExtName(originalname)))
  {
    var a := Decimal(now);
    var b := Decimal(random);
    var e := ExtName(originalname);
    assert StorageName(now, random, originalname) == a + "-" + (b + e);
    ParseClockPart(a, b + e);
    ParseRandomPart(DigitsValue(a, 10), b, e);
    DecimalValue(now);
    DecimalValue(random);
  }

  /** Two uploads get the same name only with the same clock reading, the same random number
      and the same extension. */
  lemma NamesDistinct(now1: nat, random1: nat, name1: string, now2: nat, random2: nat, name2: string)
    ensures StorageName(now1, random1, name1) == StorageName(now2, random2, name2) <==>
            now1 == now2 && random1 == random2 && ExtName(name1) == ExtName(name2)
  {
    StorageNameRoundTrip(now1, random1, name1);
    StorageNameRoundTrip(now2, random2, name2);
  }

  /** Decimal digits hold no `/`. */
  lemma DigitsNoSlash(s: string)
    requires AllRadixDigits(s, 10)
    ensures forall j :: 0 <= j < |s| ==> s[j] != '/'
  {
    forall j | 0 <= j < |s| ensures s[j] != '/' {
      assert IsRadixDigit(s[j], 10);
    }
  }

  /** A stored name is one plain path segment: not empty, not `.` or `..`, without `/`. */
  lemma StoredNamePlain(now: nat, random: nat, originalname: string)
    ensures PlainSegment(StorageName(now, random, originalname))
  {
    var a := Decimal(now);
    var b := Decimal(random);
    var e := ExtName(originalname);
    var name := a + "-" + b + e;
    assert StorageName(now, random, originalname) == name;
    DigitsNoSlash(a);
    DigitsNoSlash(b);
    assert name[|a|] == '-' && |name| >= 2;
    forall j | 0 <= j < |name| ensures name[j] != '/' {
      if j < |a| {
        assert name[j] == a[j];
      } else if j == |a| {
      } else if j < |a| + 1 + |b| {
        assert name[j] == b[j - |a| - 1];
      } else {
        assert name[j] == e[j - |a| - 1 - |b|];
      }
    }
  }

  /** The upload directory, as the set of names stored in it. */
  class ImageStore {
    var names: set<string>

    constructor (stored: set<string>)
      ensures names == stored
    {
      names := stored;
    }

    /** multer's handling of one file: the filter, the limit, then the write under a new name. */
    method Ingest(file: UploadedFile, now: nat, random: nat) returns (r: Ingest)
      modifies this
      ensures r == Accept(file, now, random)
      ensures names == if r.Stored? then old(names) + {r.name} else old(names)
    {
      r := Accept(file, now, random);
      if r.Stored? {
        names := names + {r.name};
      }
    }
  }

  const AttachmentSql := "\n        INSERT INTO fs_attachments (attachment_record_id, attachment_name, attachment_type)\n        VALUES (?, ?, ?)\n    "

  /** The row recording a stored file against an item, with attachment type 0. */
  function AttachmentQuery(itemId: string, name: string): Query
  {
    Query(AttachmentSql, [Some(JString(itemId)), Some(JString(name)), Some(JNumber(0))])
  }

  /** The reply once the row is saved: the stored name and its two URLs. */
  function UploadedJson(name: string): Json
  {
    JObject([("message", JString("Image uploaded successfully")),
             ("attachment_url", JObject([("fileName", JString(name)),
                                         ("orignal", JString(OriginalUrl(name))),
                                         ("custom", JString(CustomUrl(name)))]))])
  }

  /** The route: multer first (its errors go to Express's error handler), then the check that a
      file came, then the attachment row; `dbFails` is whether the database reports an error. */
  method UploadImage(res: Response, store: ImageStore, itemId: string, file: Option<UploadedFile>,
                     now: nat, random: nat, dbFails: bool) returns (run: Option<Query>)
    requires res.Untouched()
    modifies res, store
    ensures file.None? ==>
              run == None && store.names == old(store.names) &&
              res.Shows(Reply(400, map[], JsonBody(ErrorJson("No file uploaded"))))
    ensures file.Some? && Accept(file.value, now, random).Refused? ==>
              run == None && store.names == old(store.names) &&
              res.Shows(Reply(500, map[], ErrorPage(TypeMessage)))
    ensures file.Some? && Accept(file.value, now, random).TooLarge? ==>
              run == None && store.names == old(store.names) &&
              res.Shows(Reply(500, map[], ErrorPage(SizeMessage)))
    ensures file.Some? && Accept(file.value, now, random).Stored? ==>
              var name := Accept(file.value, now, random).name;
              store.names == old(store.names) + {name} &&
              run == Some(AttachmentQuery(itemId, name)) &&
              res.Shows(if dbFails then Reply(500, map[], JsonBody(ErrorJson("Database error while saving image")))
                        else Reply(200, map[], JsonBody(UploadedJson(name))))
  {
    if file.None? {
      res.Status(400);
      res.Send(JsonBody(ErrorJson("No file uploaded")));
      return None;
    }
    var ingest := store.Ingest(file.value, now, random);
    match ingest
    case Refused(message) =>
      res.Fail(message);
      run := None;
    case TooLarge =>
      res.Fail(SizeMessage);
      run := None;
    case Stored(name) =>
      run := Some(AttachmentQuery(itemId, name));
      if dbFails {
        res.Status(500);
        res.Send(JsonBody(ErrorJson("Database error while saving image")));
      } else {
        res.Send(JsonBody(UploadedJson(name)));
      }
  }

  /** A stored name holds no `?`, `#` or `%` unless the client's extension does: the clock
      reading, `-` and the random number are digits and a dash. */
  lemma StoredNameSafe(now: nat, random: nat, originalname: string)
    requires PathSafe(ExtName(originalname))
    ensures PathSafe(StorageName(now, random, originalname))
  {
    var a := Decimal(now);
    var b := Decimal(random);
    var e := ExtName(originalname);
    var name := a + "-" + b + e;
    assert StorageName(now, random, originalname) == name;
    forall j | 0 <= j < |name| ensures name[j] != '?' && name[j] != '#' && name[j] != '%' {
      if j < |a| {
        assert name[j] == a[j] && IsRadixDigit(a[j], 10);
      } else if j == |a| {
      } else if j < |a| + 1 + |b| {
        assert name[j] == b[j - |a| - 1] && IsRadixDigit(b[j - |a| - 1], 10);
      } else {
        assert name[j] == e[j - |a| - 1 - |b|];
      }
    }
  }

  /** The URLs in the reply to an accepted upload whose extension holds no `?`, `#` or `%`
      work: the original is `item/image/<name>`,
      and the custom one reaches the derivative route, which, the file now being stored, resizes
      it to 500 by 500 at quality 50. */
  lemma UploadedUrlsServe(file: UploadedFile, now: nat, random: nat, stored: set<string>)
    requires Accept(file, now, random).Stored? && PathSafe(ExtName(file.originalname))
    ensures var name := Accept(file, now, random).name;
            OriginalUrl(name) == "item/image/" + name &&
            DerivativeRoute(Pathname("/" + CustomUrl(name))) == Some(("500X500", "50", name)) &&
            Decide(stored + {name}, "500X500", "50", name) == Transform(Resize(name, Some(500), Some(500), 50))
  {
    var name := Accept(file, now, random).name;
    StoredNamePlain(now, random, file.originalname);
    StoredNameSafe(now, random, file.originalname);
    OriginalUrlPlain(name);
    CustomUrlRoundTrip(name, stored + {name});
  }
}
