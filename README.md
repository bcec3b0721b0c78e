# fashion backend: image derivatives, uploads and request shaping

A Dafny model of the request-handling core of the fashion store's Express backend
(`backend/index.js`). It covers:

- **The derivative-image route** `GET /item/image/:dimensions/:quality/:filename`. It reads width and
  height from the dimensions token (`150`, `150x200`, `150X200`), accepts a quality from 1 to 100
  with `parseInt(quality, 10)`, checks that the file is stored, and answers with the file resized
  and re-encoded as JPEG. The checks come in a fixed order: 400, then 404, then the resize, and a
  failing resize is a 500.
- **Image uploads.** This covers multer's file filter (JPEG, PNG, GIF), its 5 MiB size limit, the
  name a stored file gets (`<clock>-<random><extension>`), and the upload route that records the
  attachment row and returns the URLs of the image.
- **Attachment URLs.** The "original" URL is `item/image/<name>` and the "custom" URL is
  `item/image/500X500/50/<name>`. A custom URL is itself a request to the derivative route.
- **Request-body shaping.** This covers:
  - the sensitive-column filter of the item update and add routes;
  - the `UPDATE ... SET` and `INSERT ... VALUES` built from what it keeps;
  - the bulk keyword insert;
  - the keyword search with its `LIKE` filter and paging;
  - keyword-id extraction for linking keywords to an item.

The JavaScript behaviour these depend on is modelled too:

- `Number`, `parseInt` with and without a radix, and `String(n)`;
- `split` and `join`;
- property access, `delete`, and assignment into an object;
- `JSON.parse`'s handling of repeated names, and of a member named `__proto__`, which it makes an
  own property;
- `obj[key] = v` on a plain object, where the name `__proto__` runs the prototype setter and adds
  no property;
- `String(v)`, which throws a `TypeError` for an object carrying its own `toString` member (a
  JSON value is never a function, and the inherited `valueOf` gives the object back);
- `path.extname` and `path.join`;
- the parts of Express's response object the handlers write.

Modules:

- `JsText`: digits, `String(n)`, `split` and `join`.
- `JsNumbers`: white space, `parseInt` and `Number`.
- `JsValues`: JSON values, property access, `String(v)`, truthiness and object assignment.
- `NodePath`: `path.extname` and `path.join`.
- `Http`: the response object.
- `Sql`: queries and counting `?` placeholders.
- `Derivative`: the derivative route.
- `Attachments`: the attachment URLs.
- `Upload`: uploads.
- `ItemColumns`: the update and add routes.
- `Keywords`: the keyword routes.

The handlers mutate the response, so they are methods on an Express-like `Response` class. Each is
proved against a function that gives the reply or the query. Where the source builds something
step by step, the model does too:

- the column filter's `reduce` into an accumulator object is `ItemColumns.FilterColumns`;
- the search's `sql +=` and `params.push` are in `Keywords.SearchQuery`.

The image directory is a set of stored names. multer's disk storage is the class
`Upload.ImageStore`, whose `Ingest` adds a name to that set.

Two behaviours a reader may not expect:

- **Refused uploads.** A file with a disallowed MIME type, or one over the size limit, reaches
  Express's default error handler through multer's `next(err)`. The reply is therefore 500, not
  400.
- **Dimensions.** Dimension tokens are not validated. `NaN`, `0` and a missing height (`150x` gives
  height 0) go to the resize as they are, and only its failure shows, as a 500.

## Model

| member | source | states |
|---|---|---|
| Derivative.ServeDerivative | backend/index.js:59-101 | The response is exactly the reply `Answer` gives for the `Decide` plan: 400 with the quality message, 404 "Image not found", 200 with `Content-Type: image/jpeg` and the library's bytes, or 500 when the library fails |
| Derivative.DecodeDimensions | backend/index.js:63-71 | With an `x` or `X` in the token, `Number` of the parts before and after the first delimiter of `split(/x\|X/)`; without one, `Number` of the whole token for both. `NaN` is `None` |
| Derivative.AcceptedQuality | backend/index.js:74-77 | An accepted quality lies in 1..100 |
| Derivative.Exists | backend/index.js:80-83 | `fs.existsSync(path.join(IMAGE_DIR, filename))`: a stored name, or `.` and `..`, which join to the directory and its parent |
| Derivative.Decide | backend/index.js:74-95 | A quality refused by `parseInt(quality, 10)` and the 1..100 range is refused first, then a missing file, then the resize of the file to the decoded size at the accepted quality |
| Derivative.Answer | backend/index.js:76-99 | 400 with the quality message, 404 "Image not found", 200 with `Content-Type: image/jpeg` and the library's bytes, or 500 "Internal Server Error" when the library throws |
| Derivative.CheckOrder | backend/index.js:74-99 | The reply is 400 iff the quality is refused, and 404 iff the quality is good and the file is missing. In both cases the reply does not depend on the image library, which is never called. Otherwise the library gets the decoded size and the accepted quality, and the reply is 200 with its JPEG iff it succeeds, else 500 |
| Derivative.QualityRange | backend/index.js:74-77 | A quality written as the integer n is accepted iff 1 <= n <= 100, and then it is n, both ends included |
| Derivative.QualityStopsAtNonDigit | backend/index.js:74 | `parseInt` reads only the leading digits: decimal n followed by a non-digit is accepted iff n is in 1..100 |
| Derivative.QualityWithoutDigits | backend/index.js:74-76 | A token with no digit after its white space and sign is refused |
| Derivative.DimensionsAtFirstDelimiter | backend/index.js:63-67 | With an `x`/`X`, the width is the number before the first delimiter and the height the number between it and the next; later parts are ignored |
| Derivative.DimensionsOfDigits | backend/index.js:65-67 | Two runs of digits around a delimiter decode to the numbers they denote, as width and height |
| Derivative.DimensionsRoundTrip | backend/index.js:63-71 | `WxH` and `WXH` written in decimal decode back to width W and height H |
| Derivative.DimensionsSquare | backend/index.js:68-71 | A lone decimal N decodes to N by N |
| Derivative.DecideStored | backend/index.js:74-99 | With a quality the route accepts and a stored file, the decision is to resize to the decoded dimensions at that quality |
| Derivative.DimensionsUnchecked | backend/index.js:63-91 | A width followed by `x` and nothing else decodes to that width by 0 (`Number("")`), a lower-case word without `x` to NaN by NaN, and with a good quality and a stored file both reach the resize unchanged: the dimensions are never range-checked |
| Upload.Accept | backend/index.js:38-53 | A file is stored iff its MIME type is image/jpeg, image/png or image/gif and its size is at most 5242880 bytes. It is refused with the filter's message iff its type is not one of those. A stored file gets the name `StorageName` gives |
| Upload.StorageName | backend/index.js:32-35 | `Date.now() + "-" + Math.round(Math.random() * 1e9) + path.extname(originalname)`, the clock reading and the rounded random number given |
| Upload.StorageNameRoundTrip | backend/index.js:32-35 | A stored name reads back as the clock reading, the random number and the extension of the client's file name |
| Upload.NamesDistinct | backend/index.js:32-35 | Two stored names are equal iff they have the same clock reading, random number and extension |
| Upload.StoredNamePlain | backend/index.js:32-35 | A stored name is a single plain path segment: non-empty, not `.` or `..`, no `/` |
| Upload.StoredNameSafe | backend/index.js:33-34 | A stored name holds a `?`, `#` or `%` only if the client's extension does: the clock reading, the dash and the random number never do |
| Upload.ImageStore.Ingest | backend/index.js:28-53 | The result is `Accept`'s, and the store gains exactly the stored name, or nothing when the file is refused or too large |
| Upload.UploadImage | backend/index.js:520-547 | No file gives 400 "No file uploaded". A refused type gives 500 with the filter's error, and a file too large gives 500 with "File too large"; both leave the store unchanged. A stored file gets an attachment row with the item id, the name and type 0, then a 500 database error or 200 with the name and its two URLs |
| Upload.UploadedUrlsServe | backend/index.js:540-544 | For an accepted upload, the original URL is `item/image/<name>`. When the client's extension holds no `?`, `#` or `%`, the custom URL is routed on whole, reaches the derivative route with `500X500`, `50` and the name, and resizes the newly stored file to 500 by 500 at quality 50 (the image directory written and the one read taken to be the same) |
| Attachments.OriginalUrl | backend/index.js:248 | `path.join('item', 'image', name)` |
| Attachments.CustomUrl | backend/index.js:249 | `path.join("item", "image", "500X500", "50", name)` |
| Attachments.DerivativeRoute | backend/index.js:59 | The router's match of `/item/image/:dimensions/:quality/:filename`: six `/`-separated segments (one trailing slash allowed), the fixed words in any case, each parameter one non-empty segment |
| Attachments.AttachmentListServes | backend/index.js:245-251 | In the item details' attachment list, the entry of a stored attachment whose name is plain and holds no `?`, `#` or `%` carries under `attachment_url.custom` the custom URL of its name, and that URL, requested, is a 500 by 500 resize at quality 50 of the same file |
| Attachments.OriginalUrlPlain | backend/index.js:248 | For a plain name, the original URL is `item/image/<name>` |
| Attachments.CustomUrlPlain | backend/index.js:249 | For a plain name, the custom URL is `item/image/500X500/50/<name>` |
| Attachments.CustomRoute | backend/index.js:59-61 | The path `/item/image/500X500/50/<name>` routes to dimensions `500X500`, quality `50` and filename `<name>` |
| Attachments.CustomDecision | backend/index.js:63-95 | `500X500` decodes to 500 by 500 and `50` is accepted as 50, so a stored name is resized to 500 by 500 at quality 50 |
| Attachments.CustomUrlRoundTrip | backend/index.js:249 | The custom URL of a stored plain name without `?`, `#` or `%`, requested, is routed on as it is, reaches the derivative route and is a 500 by 500 resize at quality 50 of that same name |
| Attachments.UnescapedNameCut | backend/index.js:249 | The URL is not percent-encoded, so for a name holding `?` or `#` the path Express routes on is shorter than the custom URL: the route never sees the whole name |
| Attachments.Pathname | backend/index.js:59 | The path the router matches is a prefix of the requested URL with no `?` or `#`, and the whole URL when it holds no `?`, `#` or `%` |
| Attachments.LowerAscii | backend/index.js:59 | The case folding of the route's fixed words: no upper-case ASCII letter remains, every other character is kept, and the length is unchanged |
| ItemColumns.Retained | backend/index.js:267-271 | A property is kept iff it is in the body and its name is not `item_id`, `item_created_at` or `item_udpated_at`; nothing is added |
| ItemColumns.KeysRetained | backend/index.js:270-271 | The kept names are the body's names with the sensitive ones filtered out, in order |
| ItemColumns.RetainedDistinct | backend/index.js:270-275 | Filtering keeps property names distinct |
| ItemColumns.RetainedAppend | backend/index.js:270-275 | Filtering preserves order: the filter of a concatenation is the concatenation of the filters |
| ItemColumns.Written | backend/index.js:270-275 | A property is in the object the `reduce` builds iff it is in the body, its name is not sensitive and its name is not `__proto__` |
| ItemColumns.RetainedEmpty | backend/index.js:270-279 | Nothing passes the filter iff every property of the body is sensitive, and the built object is empty, so the route answers 400, iff every property is sensitive or named `__proto__` |
| ItemColumns.ProtoOnly | backend/index.js:270-279 | A body whose one property is `__proto__` builds an empty object: `JSON.parse` made it an own property, the filter keeps it, and `obj["__proto__"] = v` sets the prototype instead of adding it |
| ItemColumns.OtherSpellingsKept | backend/index.js:267 | The filter matches names exactly, so `ITEM_ID` and the correctly spelt `item_updated_at` are kept |
| ItemColumns.ReduceStep | backend/index.js:272-274 | In one `obj[key] = updates[key]` step, `updates[key]` is the kept property's own value, and writing it into the object built from the first i kept properties gives the object built from the first i+1: one more property, or none for `__proto__` |
| ItemColumns.FilterColumns | backend/index.js:270-275 | The object the `reduce` builds is exactly the retained properties of the body, in order, less a `__proto__` one |
| ItemColumns.MarksOfClauses | backend/index.js:282 | The clauses hold one `?` each, plus any in the names themselves |
| ItemColumns.MarksOfPlaceholders | backend/index.js:323 | n placeholders hold n marks |
| ItemColumns.UpdateQuery | backend/index.js:282-284 | `UPDATE fs_items SET k1 = ?, ... WHERE item_id = ?` with the kept values and then the item id as parameters |
| ItemColumns.InsertQuery | backend/index.js:322-325 | `INSERT INTO fs_items (k1, ...) VALUES (?, ...)` with one `?` and one parameter per kept value |
| ItemColumns.UpdateShape | backend/index.js:282-286 | The UPDATE has the kept values in order and then the item id as parameters. Its `?` count is that number plus the `?`s inside the names, which go into the text unescaped |
| ItemColumns.InsertShape | backend/index.js:322-325 | The INSERT has one parameter per kept value, in order. Its `?` count is that number plus the `?`s inside the names |
| ItemColumns.UpdateItem | backend/index.js:262-286 | With nothing in the built object the reply is 400 "No valid fields provided for update" and no query runs; otherwise the UPDATE of the built object's properties runs and the response is untouched |
| ItemColumns.AddItem | backend/index.js:303-326 | The same for the add route, with the INSERT of the built object's properties |
| Keywords.Delete | backend/index.js:365 | After `delete item.keyword_id` an object has no `keyword_id`, and every other property reads as before |
| JsValues.Without | backend/index.js:365 | Removing a name leaves exactly the members with other names, keeps names distinct, and leaves every other name's value unchanged |
| Keywords.MarksOfRows | backend/index.js:378 | n `(?)` rows hold n marks |
| Keywords.AddQuery | backend/index.js:375-381 | `INSERT INTO fs_keywords (keyword_name) VALUES (?), ...` with one `(?)` row per item and each item's `keyword_name`, `undefined` when missing, in item order |
| Keywords.AddShape | backend/index.js:375-384 | The bulk insert has exactly as many `?` as parameters, and as many parameters as items |
| Keywords.AddKeywords | backend/index.js:358-384 | A body that is not an array fails at `map` with a 500. A `null` item fails at `delete` with a 500. An empty array gives 400 "Invalid data format or empty data". Otherwise the bulk insert of the items' names runs |
| Keywords.Pattern | backend/index.js:401-407 | The conversions of `searchString.length > 0` and of the template literal throw only the `TypeError` of an object that cannot be made a string; otherwise a pattern, when there is one, is wrapped in `%` at both ends |
| Keywords.LengthOf | backend/index.js:405 | `searchString.length`: a string's or an array's length, an object's own `length` member, nothing for other values |
| Keywords.Positive | backend/index.js:405 | `length > 0` with the length converted to a number; it throws, with the conversion's message, for an object exactly when the object has its own `toString` |
| Keywords.IntOr | backend/index.js:411-412 | `parseInt(v) \|\| fallback` throws iff `String(v)` does, with its message, and otherwise is never 0 when the fallback is not |
| Keywords.Page | backend/index.js:411 | `parseInt(req.body.page) \|\| 1` |
| Keywords.PageSize | backend/index.js:412 | `parseInt(req.body.pageSize) \|\| 10` |
| Keywords.SearchSpec | backend/index.js:400-414 | The search query: the base, the `LIKE ?` filter with its pattern when there is one, then `LIMIT ?, ?` with the offset (page-1)*pageSize and the page size; or the error the first throwing conversion raises |
| Keywords.SearchMarks | backend/index.js:402-414 | A search query that is built has as many `?` as parameters, with or without its filter |
| Keywords.SearchQuery | backend/index.js:400-414 | The query built step by step with `sql +=` and `params.push` is the search query of the body; when a conversion throws, the route stops there and the reply is 500 with the `TypeError`'s page |
| Keywords.Paging | backend/index.js:411-414 | Non-zero page and page size written as numbers are used as they are, so the offset is (page-1)*pageSize; missing ones give page 1 and size 10 |
| Keywords.SearchTerms | backend/index.js:401-407 | A non-empty search string s is searched as `%s%`; an empty or missing one adds no filter |
| Keywords.UnconvertibleSearch | backend/index.js:401-412 | A search string with a positive `length`, a page or a page size that is an object with its own `toString` makes the route throw `Cannot convert object to primitive value` |
| Keywords.KeywordId | backend/index.js:491 | `parseInt(k.keyword_id)`: a `null` item throws at the property read, an id that cannot be made a string throws, and anything else parses to a number or `NaN` |
| Keywords.Collect | backend/index.js:491 | The `map` then the `filter`: it completes iff no step throws, and then holds at most one id per step, a number being among them iff some step gave it; otherwise it raises the error of the first throwing step |
| Keywords.KeywordIds | backend/index.js:491 | The extraction completes iff no item's step throws, and then holds at most one id per item, a number being among the ids iff some item's `keyword_id` parses to it; otherwise it raises the error of the first item whose step throws |
| Keywords.KeywordIdsAppend | backend/index.js:491 | Ids keep item order: extraction over a concatenation is the extraction over the first part, then over the second, a throw in the first ending both |
| Keywords.NumericIds | backend/index.js:491 | Items whose `keyword_id` are the numbers ns give exactly ns, in order, without a throw |
| Keywords.IdsWithoutDigits | backend/index.js:491 | A missing id, `"abc"` and `true` do not parse |
| Keywords.IdWithTrailingText | backend/index.js:491 | `"12abc"` parses to 12 |
| Keywords.ThrowingItems | backend/index.js:491 | A `null` item first ends the extraction with the property read's `TypeError`, and an item whose `keyword_id` is an object with its own `toString` with the conversion's, whatever follows |
| Keywords.LinkQuery | backend/index.js:498-506 | The link insert with the one parameter `[[item_id, id], ...]`, one row per id, in order |
| Keywords.LinkKeywords | backend/index.js:479-506 | The checks run in order. An empty item id gives 400; a non-array or empty body gives 400; an item whose step throws (a `null` item, an unconvertible id) gives 500 with that error's page; no parsable id gives 400. Otherwise the link insert of the item id paired with each id runs |
| JsText.DecimalValue | backend/index.js:33 | The decimal rendering of n denotes n |
| JsText.DecimalInjective | backend/index.js:33 | Different numbers render differently |
| JsText.Split | backend/index.js:67 | `split` gives one more part than there are separators |
| JsText.SplitAtFirst | backend/index.js:67 | Splitting at the first separator gives the text before it, then the parts of the rest |
| JsText.SplitJoin | backend/index.js:67 | Splitting undoes joining with a separator no part holds |
| JsNumbers.ParseIntToString | backend/index.js:411-412 | `parseInt` of an integer's decimal rendering gives the integer back, with or without radix 10 |
| JsNumbers.ParseIntOfWord | backend/index.js:411-412 | `parseInt` of text that starts with a lower-case letter, such as `undefined`, is NaN |
| JsNumbers.ParseDecimalPrefix | backend/index.js:74 | `parseInt` of decimal n followed by a non-digit gives n, with radix 10, and without it unless n is 0 and the next character is `x` or `X` (which would read as hexadecimal) |
| JsNumbers.NumberOfToString | backend/index.js:67-70 | `Number` of an integer's decimal rendering gives the integer back |
| JsNumbers.NumberOfWord | backend/index.js:67-70 | `Number` of text that starts and ends with a lower-case letter is NaN |
| JsNumbers.ParseInt | backend/index.js:74 | `parseInt(s, 10)` and `parseInt(s)`: leading white space skipped, one sign, then the longest run of digits, in radix 16 after `0x` when no radix is given; `NaN` when the run is empty |
| JsNumbers.NumberOf | backend/index.js:67-70 | `Number(s)`: white space around ignored, the empty string 0, otherwise a whole signed decimal integer or a `0x`, `0o` or `0b` literal, else `NaN` |
| JsValues.Get | backend/index.js:375 | A property is found only on an object, and found iff a member has its name |
| JsValues.Lookup | backend/index.js:375 | The value found is that of the last member with the name |
| JsValues.ToString | backend/index.js:407 | `String(v)` throws only `Cannot convert object to primitive value`; an object throws iff it has its own `toString` member; a value that is neither an object nor an array never throws |
| JsValues.Truthy | backend/index.js:401 | Falsy are `undefined`, `null`, `false`, 0 and the empty string; every other value, objects and arrays included, is truthy |
| JsValues.Assign | backend/index.js:273 | Defining a property keeps names distinct, adds the name last if new, makes it read v, and leaves other names unchanged |
| JsValues.Put | backend/index.js:273 | `obj[key] = v` on a plain object: for `__proto__` the object's properties are unchanged; otherwise as defining the property. Names stay distinct and other names read as before |
| JsValues.Properties | backend/index.js:264 | The parsed object has distinct names, each reading as the last repeated member of the JSON text, `__proto__` included as an own property |
| JsValues.OwnProperties | backend/index.js:270 | An object's own properties, an array's indices as decimal strings, nothing for anything else; no name twice |
| NodePath.ExtName | backend/index.js:34 | An extension is empty or starts with `.`, and holds no `/` and no later `.` |
| NodePath.ExtNameOf | backend/index.js:34 | The extension of `stem.word` is `.word` |
| NodePath.ExtNameNone | backend/index.js:34 | A name with no `.` has no extension |
| NodePath.PathJoinPlain | backend/index.js:248-249 | `path.join` of plain segments joins them with `/` |
| NodePath.PathJoin | backend/index.js:248-249 | `path.join`: the non-empty arguments joined with `/`, then normalized, `.` for nothing |
| Sql.MarksOfJoin | backend/index.js:378 | A joined list holds the `?`s of its parts and of its separators |
| Http.Response.Fail | backend/index.js:97-99 | An error reaching Express's default handler makes the reply 500 with the error's page |

## Left out

- The `sharp` decode, resize and encode (backend/index.js:88-91) is a foreign image library. It is a
  function parameter that gives the JPEG bytes or fails.
- `fs.existsSync`, `express.static` and multer's disk writes are I/O. The image directory is a set of
  names, `.` and `..` counting as existing.
- `express.static` is mounted on `/item/image` ahead of the derivative route (backend/index.js:56). A
  derivative path that happens to name a stored file inside sub-directories would be served by it;
  the model routes every six-segment path to the derivative route.
- `Date.now()` and `Math.random()` are nondeterminism. They are parameters of the name, and the
  random number is not bounded by 1e9.
- JWT signing and checking and the MD5 password check (backend/index.js:104-178) are cryptographic
  library calls.
- MySQL execution, result rows and callbacks are I/O. The handlers end with the query they would run.
  The upload route alone is given whether the insert fails, because its reply depends on it.
- The item listing, item details, delete and keyword-listing routes' own queries and callbacks are
  plain database access. Only their attachment-URL construction is modelled.
- CORS, logging, `express.json()` parsing of the raw text, and server start-up are framework
  plumbing.
- The `Content-Type` headers Express adds on its own for `send` and `json` are not modelled. Only
  the one the derivative route sets is.
- Upload.UploadedUrlsServe, Attachments.CustomUrlRoundTrip, Attachments.AttachmentListServes: the
  URLs are handed out without percent-encoding, so a name whose client-chosen extension holds `?`
  or `#` is cut short when requested (Attachments.UnescapedNameCut), and one holding `%` meets
  Express's parameter decoding (400 for a malformed escape, another name otherwise). The round trip
  is promised only for names without these characters.
- URL percent-decoding of route parameters is not modelled. A filename with an encoded `/` or `..`
  is outside the model, and so is `path.join`'s resolution of such names beyond `.` and `..`.
- `Object.keys` puts integer-like names first in ascending order. The model keeps insertion order
  for all names.
- JsNumbers.NumberOf: fractions, exponents and `Infinity` read as NaN here, and JSON numbers are
  integers. So `Number("1.5")`, and dimensions written that way, are not modelled.
- Numbers beyond 2^53 are exact here, where JavaScript rounds them.
- Http.Response.Fail: Express's default error page is represented by the error's message alone.
- multer's error for a file sent under a field name other than `image` is not modelled. The upload
  route sees a file or none.
- The mysql driver's expansion of `VALUES ?` into rows is not modelled. The link query carries the
  rows as its one parameter.
- Upload.UploadedUrlsServe: multer writes to `uploads/images/`, relative to the working directory
  (backend/index.js:30), while the routes read `path.join(__dirname, "uploads", "images")`
  (backend/index.js:25, 80). These are one directory only when the server starts in `backend/`; the
  model has one set of stored names for both.
- Keywords.Positive: when `keyword_name` is an object whose own `length` is a string, the comparison
  with 0 converts it with NumberOf, so it shares NumberOf's limits.
- The response's reply to a successful database call in the update, add, keyword-add, search and
  link routes depends on the result rows and is not modelled.
