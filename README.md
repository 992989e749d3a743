# goodreads-json in Dafny

A model of the core of `goodreads-json`, a Node.js wrapper for the Goodreads
XML API that hands back JSON. The model covers two parts:

- **The client facade** (`index.js`):
  - the URL builders for book lookup, user lookup and shelf listing;
  - how the API key is resolved: per-call key, else constructor key, else `''`;
  - how `getBookInfo`, `getUserInfo` and `getShelfBooks` pick a builder or throw a `TypeError`;
  - the in-place write of the resolved key into the caller's shelf request;
  - what a request settles to once the HTTP status is known: 200 projects the field, 401 is
    "Invalid API key.", anything else is an error that names the status.
- **The response normaliser's callbacks** (`xml2js-ext.js`):
  - `nativeType`, which coerces leaf text to a number, a boolean or the unchanged string;
  - the text and CDATA callbacks, which write the value in place into the last slot of the
    grandparent object. For the text callback, an array slot only has its final element
    overwritten; the CDATA callback replaces the whole slot.

Modules:

- `Wrappers`: `Option` and `Result`.
- `Decimal`: decimal rendering of naturals, and reading it back.
- `UriEncoding`: ECMAScript `encodeURI` (ECMA-262, section 19.2.6.5). The unescaped set is
  written out, and every other character becomes its UTF-8 octets as upper-case `%XY`. A
  percent-decoder serves as its inverse.
- `QueryString`: `Array.prototype.join`, and reading the `&`-separated parameters back out of
  a URL.
- `JsValues`: JavaScript argument values, truthiness, `typeof`, template-literal rendering and
  `||`. Objects are a class whose property map can be written in place.
- `Goodreads`: `index.js`.
- `XmlText`: `xml2js-ext.js`. The grandparent container is a class holding an ordered key list
  and a value map, and arrays in the tree are Dafny arrays.

Where the code and its documentation disagree, the model follows the code. The title check
in `buildBookUrl` tests only `typeof title === 'string'`, so the empty title is accepted,
although the error message says "non-empty string".

`encodeURI` leaves `&` and `#` as they are. So the parameter-level lemmas about book and shelf
URLs (`BookUrlParams`, `ShelfUrlParams`, `UserInfoUrlParams`) require that the interpolated
values hold neither character. `EncodeUriKeeps` proves that such a character in a title or
query does reach the URL, and `BookTitleAmpersand` shows the consequence: a title "A & B"
reaches the server as the title parameter `A%20`, with the rest of the title cut off.

## Model

| member | source | states |
|---|---|---|
| Decimal.DigitsValueOfNatToString | index.js:75 | The decimal rendering of a status, read back as digits, is that status. |
| Decimal.NatToStringInjective | index.js:75 | Different statuses render differently. |
| UriEncoding.EncodeUri | index.js:24 | The encoding is never shorter than the input, and it is empty exactly when the input is. |
| UriEncoding.EncodeUriChars | index.js:23-24 | The encoding holds only unescaped characters and `%`. |
| UriEncoding.EncodeUriAppend | index.js:24 | Encoding distributes over concatenation. |
| UriEncoding.EncodeUriIdentity | index.js:24 | A string made only of unescaped characters is left unchanged. |
| UriEncoding.EncodeUriKeeps | index.js:23-24 | An unescaped non-hex character such as `&` or `#` occurs in the encoding exactly when it occurs in the input. |
| UriEncoding.EncodeUriSpace | index.js:49 | A space becomes `%20`, and the text on each side is encoded on its own. |
| UriEncoding.PercentDecodeEncodeUri | index.js:23-24 | Percent-decoding the encoding gives the UTF-8 octets of the input. |
| JsValues.TypeOf | index.js:120 | `typeof` is "string", "number" or "object" exactly for strings, numbers, and null or objects. |
| Goodreads.InstanceKey | index.js:12 | The stored key is the constructor key when that is truthy; otherwise it is `''`. |
| Goodreads.ResolveKey | index.js:103 | `request.key \|\| this.key` is the per-call key when that is truthy and the instance key otherwise; it is truthy exactly when one of the two is. |
| Goodreads.KeyPrecedence | index.js:103 | The key used is a truthy per-call key, else a truthy constructor key, else the empty string. |
| Goodreads.BuildBookUrl | index.js:19-26 | `buildBookUrl` fails exactly when the title is not a string, and then with the TypeError and its message. |
| Goodreads.BookUrlParams | index.js:23-25 | A book URL carries exactly the parameters title, key and author, in that order. The title is percent-encoded, the author is encoded when truthy and empty otherwise, and the encoded title decodes to the title's octets. |
| Goodreads.BookTitleAmpersand | index.js:23-25 | For a title `p & q` where `p` holds no `&` or `#`, the first parameter the server reads is `title=` with only `p` encoded: the rest of the title is cut off. |
| Goodreads.BookTitleAmpersandExample | index.js:24 | The title "A & B" reaches the server as `title=A%20`. |
| Goodreads.BuildUserInfoUrl | index.js:28-30 | The URL starts with the Goodreads user path of the id and ends with `.xml?key=` and the key, with nothing between: its length is the sum of the two. |
| Goodreads.UserInfoUrlParams | index.js:28-30 | A user URL carries the key as its only parameter. |
| Goodreads.BuildBookAllShelvesUrl | index.js:32-34 | The URL starts with the Goodreads review-list path of the id and ends with `.xml?key=`, the key and `&v=2`, with nothing between: its length is the sum of the two. |
| Goodreads.OptionParam | index.js:39-41 | An option contributes a parameter exactly when it is truthy. |
| Goodreads.ExtraParamsEmpty | index.js:39-56 | There are no optional parameters exactly when all six options are falsy. |
| Goodreads.ShelfUrlExtendsAllShelves | index.js:36-60 | The shelf URL is the all-shelves URL followed by `&name=value` for each truthy option. |
| Goodreads.ShelfUrlWithoutOptions | index.js:58-59 | With no truthy option, the shelf URL is the all-shelves URL with no trailing `&`. |
| Goodreads.ShelfUrlParams | index.js:36-60 | The shelf URL's parameters are key, `v=2` and then exactly the truthy options in the order shelf, sort, order, search[query], page, per_page. Only the query is encoded. |
| Goodreads.PushOption | index.js:39-41 | A push adds `name=value` exactly when the option is truthy. |
| Goodreads.BuildBookShelvesUrl | index.js:36-60 | The push-and-join procedure yields the shelf URL, and the URL is not empty. |
| Goodreads.Member | index.js:109 | A property read fails exactly on undefined and null; on an object with the property, it gives the property's value. |
| Goodreads.Project | index.js:109 | `res.GoodreadsResponse[field]` succeeds exactly when the parsed body is an object whose `GoodreadsResponse` is present and neither undefined nor null; then it gives that member's field when present. |
| Goodreads.Settle | index.js:66-82 | Success needs status 200, which yields the projected field. Status 401 yields "Invalid API key.". Any other status yields an error whose message names that status. |
| Goodreads.StatusNamed | index.js:75 | The message `HTTP Error <status>: <body>` reads back as its status. |
| Goodreads.SettleOk | index.js:70-71 | A 200 response whose body wraps the field yields the field's value. |
| Goodreads.Client.constructor | index.js:12 | The instance key is `key \|\| ''`. |
| Goodreads.Client.GetBookInfo | index.js:95-111 | A non-empty string that the URL pattern accepts is used verbatim, and any other string throws the argument TypeError. An object is built into a book URL with the resolved key; null throws the property-read TypeError; anything else throws the argument TypeError. A produced URL is never empty. The promise resolves to the `book` member. |
| Goodreads.Client.GetUserInfo | index.js:119-125 | A number or string gives the user URL with the resolved key; anything else throws the TypeError. The promise resolves to the `user` member. |
| Goodreads.Client.GetShelfBooks | index.js:174-188 | A string or number gives the all-shelves URL with the instance key. An object first has `key` overwritten in place with the resolved key and nothing else changed, and then gives its shelf URL. null throws the property-read TypeError; anything else throws the argument TypeError. The promise resolves to the `reviews` member. |
| XmlText.NumberValue | xml2js-ext.js:3-4 | Under the model's decimal `Number`: the text is a number exactly when, once white space is trimmed from both ends, only decimal digits remain; its value is theirs, and blank text is 0. |
| XmlText.NativeType | xml2js-ext.js:2-14 | The result is a number, a boolean or the unchanged text. It is a number exactly when `Number` accepts the text. |
| XmlText.NativeTypeNumeral | xml2js-ext.js:3-6 | A decimal numeral becomes the number it denotes. |
| XmlText.NativeTypeOfNumber | xml2js-ext.js:3-6 | The rendering of any natural converts back to that natural. |
| XmlText.NativeTypeBlank | xml2js-ext.js:3-6 | Blank text becomes 0. |
| XmlText.NotNumeral | xml2js-ext.js:3-4 | Under the model's decimal `Number`: text holding a character that is neither a digit nor white space is not a number. |
| XmlText.NativeTypeBoolean | xml2js-ext.js:7-12 | Any casing of "true" or "false" becomes the matching boolean. |
| XmlText.NativeTypeText | xml2js-ext.js:13 | Under the model's decimal `Number`: text that is neither numeric nor a casing of "true"/"false" is returned unchanged. |
| XmlText.Container.Set | xml2js-ext.js:20 | A write replaces the slot's value and keeps the key order. A new key goes last. |
| XmlText.LengthOf | xml2js-ext.js:31 | Exactly arrays and strings have a `length`. |
| XmlText.HoistText | xml2js-ext.js:26-36 | The keys never change, and only the last slot does. A boolean, number or object slot takes the value. An array slot keeps its length and has only its final element replaced. A string slot is left as it is. A missing, undefined or null slot throws, and nothing changes. |
| XmlText.RemoveJsonTextAttribute | xml2js-ext.js:23-40 | The same as HoistText, with the coerced text `NativeType(value)`. The raw text is returned exactly when the slot is missing, undefined or null. |
| XmlText.RemoveJsonCdataAttribute | xml2js-ext.js:16-21 | The last slot takes the raw text as a string, even when it held an array, and no other slot changes. With no keys, the property "undefined" is created. |
| XmlText.TextExample | xml2js-ext.test.js:4-7 | "test" stays a string. |
| XmlText.BooleanExample | xml2js-ext.test.js:9-12 | "true" becomes `true`. |
| XmlText.NumberExample | xml2js-ext.test.js:14-17 | "12345" becomes 12345. |
| XmlText.ArrayExample | xml2js-ext.test.js:19-22 | The third `<array>` text turns the sibling array into `[1, 2, 3]`. |
| XmlText.CdataExample | xml2js-ext.test.js:29-32 | A numeric-looking CDATA text stays a string. |

## Left out

- HTTP, promises, `res.text()` and `JSON.parse` are left out. A response is a value that holds
  the status, the rendered `${res.body}` and the parsed JSON. With `node-fetch`, `res.body` is
  a stream, so the real message text is whatever the stream renders as.
- The `xml-js` parser is not part of this model: how it builds the compact tree, sets
  `_parent`, and opens array slots for repeated siblings. The callbacks receive the
  grandparent container directly.
- The `urlRegex` test in `getBookInfo` is not modelled. It is stateful through the `/g`
  flag's `lastIndex`. `GetBookInfo` takes its outcome as the boolean `matchesUrl`.
- NativeType, NumberValue, NotNumeral, NativeTypeText: `Number` is modelled only for decimal
  naturals between optional white space, plus blank text as 0. Signs, fractions, exponents,
  the hexadecimal, binary and octal prefixes (`0x`, `0b`, `0o`), `Infinity` and the
  floating-point result are left out. Such text ("-1", "1.5", "1e3", "0x1F", "0b1",
  "Infinity") is treated as NaN and stays text, although the program turns it into a number.
- NativeTypeNumeral, NativeTypeOfNumber: numbers are exact here even above 2^53, where the
  program's floating-point `Number` rounds.
- NativeType: `toLowerCase` is applied to ASCII letters only. This is enough to tell the
  casings of "true" and "false", but it is not the full Unicode mapping.
- Numbers are non-negative integers, in both arguments and tree values. Negative and
  fractional user ids and options are not modelled.
- HoistText, RemoveJsonTextAttribute, LengthOf: an object slot is treated as having no `length`. An element with a child
  element named `length` is not modelled.
- HoistText, RemoveJsonTextAttribute: writing index `-1` of an empty array creates a property, not an element. The
  model records no change.
- Arrays passed as arguments to the client are not modelled. `JsValue` has no array case.
- JsValues: there is no function, symbol or bigint case; `typeof` would send all three to the
  argument TypeError. Template rendering of numbers of 10^21 and above (`1e+21`) is not
  modelled: `NatToString` writes every natural as plain digits.
- Object keys that look like array indices are not modelled. JavaScript lists them before
  other keys.
- The documented values of `sort` and the ranges of `page` and `perPage` are not modelled.
  The code never checks them.
- Lone surrogates, for which `encodeURI` throws `URIError`, cannot occur: Dafny characters
  are Unicode scalar values.
