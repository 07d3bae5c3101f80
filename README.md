# Iconify client: a Dafny model

This project models the client that Symfony UX Icons uses to look icons up on
the Iconify registry (`src/Icons/src/Iconify.php`). The client resolves the
registry's collection index, which maps icon-set prefixes to set metadata. It
does this through a cache store once and keeps the index in a field. It also
answers three questions:

- `metadataFor(prefix)` returns a set's metadata.
- `fetchIcon(prefix, name)` turns the JSON metadata response into an `Icon`. The
  `Icon` holds the body and a `viewBox` attribute.
- `fetchSvg(prefix, name)` returns raw SVG markup.

The network and the cache store are not modelled. What they answer is passed in
as a value:

- a `Lookup` for the cache store's get-or-compute call;
- a `Transport<JsonBody>` or a `Transport<string>` for an icon request.

The model has four modules:

- `Wrappers` holds `Option` and PHP's `??` (`Coalesce`).
- `Text` holds the first-occurrence search and `str_starts_with`. It also holds
  the decimal rendering of a number, as `sprintf('%s')` does it, with its
  inverse.
- `IconifyRules` holds the pure decision logic: request paths, `viewBox`,
  `MetadataFor`, `FetchIcon` and `FetchSvg` over a given index and reply. It
  also holds their partners: the path and `viewBox` parsers and the
  fallback-chain reference `FirstKnown`.
- `IconifyClient` holds the class `Iconify`. Its field `sets: Option<Index>` is
  the memo. Ghost counters record how often the cache store was consulted and
  how often `/collections` was requested. A ghost log records the icon
  requests issued. Beside the class is a value model of the memo (`Memo`,
  `ResolveSets`, `Replay`), which the class methods are proved against.

Error kinds follow the code:

- An unknown prefix raises `IconNotFound` in `fetchIcon` and `fetchSvg`
  (src/Icons/src/Iconify.php:51-53, 80-82).
- Only `metadataFor` reports a missing prefix as its own error, `PrefixMissing`.
- Missing dimensions and a missing prefix in `metadataFor` are both a plain
  `RuntimeException` in the code. The model keeps them apart as
  `MissingDimensions` and `PrefixMissing`, by cause.
- A failure of the HTTP layer itself is not turned into `IconNotFound`. This
  covers a failed transfer or an error status, anything other than a JSON
  decoding error. The code lets it propagate, and the model reports it as
  `TransportError`. A failure of the collections fetch is reported as
  `CollectionsUnavailable`.

## Model

| member | source | states |
|---|---|---|
| `Text.StringToNatOfNatToString` | src/Icons/src/Iconify.php:74 | the decimal `%s` rendering of a dimension reads back as the same number, so it loses nothing |
| `IconifyRules.JsonPathRoundTrip` | src/Icons/src/Iconify.php:55 | for a prefix without '.', the metadata request path `/{prefix}.json?icons={name}` determines exactly that prefix and that name |
| `IconifyRules.SvgPathRoundTrip` | src/Icons/src/Iconify.php:85 | for a prefix without '/', the SVG request path `/{prefix}/{name}.svg` determines exactly that prefix and that name |
| `IconifyRules.SvgPathUnescaped` | src/Icons/src/Iconify.php:85 | paths are built with no encoding: prefix "a/b" with name "c" and prefix "a" with name "b/c" request the same SVG path, and similarly for the metadata path |
| `IconifyRules.FirstKnownOfFour` | src/Icons/src/Iconify.php:67-74 | `(w ?? dw) ?? (h ?? dh)` is the first known value of the chain icon width, set width, icon height, set height |
| `IconifyRules.ParseViewBoxOfViewBox` | src/Icons/src/Iconify.php:74 | the string `"0 0 W H"` parses back to exactly (W, H) |
| `IconifyRules.ViewBoxInjective` | src/Icons/src/Iconify.php:74 | different (width, height) pairs never give the same `viewBox` |
| `IconifyRules.MetadataForSpec` | src/Icons/src/Iconify.php:44-47 | `metadataFor` succeeds if and only if the prefix is in the index; it then returns exactly the stored entry, and otherwise fails with `PrefixMissing` |
| `IconifyRules.FetchIconFound` | src/Icons/src/Iconify.php:63-75 | given a known prefix and a body for the name, `fetchIcon` succeeds if and only if some dimension is known, and otherwise fails with `MissingDimensions`; on success the body is unchanged, `viewBox` is the only attribute, and it is exactly `"0 0 W H"` where W and H are the first known values of the two fallback chains (width, set width, height, set height and the reverse), which also parses back to (W, H) |
| `IconifyRules.FetchIconSquare` | src/Icons/src/Iconify.php:69-74 | when only one resolved dimension is known, the icon is square with that value |
| `IconifyRules.FetchIconOwnDimensionWins` | src/Icons/src/Iconify.php:67-68 | when the icon gives both width and height, the set defaults are ignored |
| `IconifyRules.FetchIconErrors` | src/Icons/src/Iconify.php:51-65 | `fetchIcon` fails with `IconNotFound` if and only if the prefix is unknown, the body is not JSON, or there is no body for the name; it fails with `TransportError` if and only if the prefix is known and the request failed |
| `IconifyRules.UnknownPrefixIgnoresReply` | src/Icons/src/Iconify.php:51-53 | for an unknown prefix, `fetchIcon` and `fetchSvg` (lines 80-82) fail with `IconNotFound` whatever the reply would have been |
| `IconifyRules.FetchSvgSpec` | src/Icons/src/Iconify.php:89-93 | `fetchSvg` returns content c if and only if the prefix is known, the reply is c, and c starts with `<svg`; otherwise the error is `TransportError` for a failed request and `IconNotFound` in all other cases |
| `IconifyClient.ResolveSetsKeeps` | src/Icons/src/Iconify.php:96-103 | one `sets()` step keeps the counters consistent, leaves a set memo untouched, and succeeds exactly when it leaves the memo set to the returned index |
| `IconifyClient.ReplayAfterResolved` | src/Icons/src/Iconify.php:98 | once the memo is set, any number of further calls consult nothing and keep the same index |
| `IconifyClient.ReplayFirstResolution` | src/Icons/src/Iconify.php:96-103 | failures are not memoised and are retried; the first non-failing answer is kept for good, after exactly one store consultation per call up to it |
| `IconifyClient.ReplayAllFail` | src/Icons/src/Iconify.php:96-103 | while every compute fails, the memo stays unset and every call consults the store and requests `/collections` |
| `IconifyClient.FetchedAtMostOnce` | src/Icons/src/Iconify.php:96-103 | with a store that never fails, the store is consulted and `/collections` is requested at most once over any number of calls |
| `IconifyClient.Iconify.constructor` | src/Icons/src/Iconify.php:32-42 | a new client has no memoised index, has issued no request, and keeps the endpoint it was given |
| `IconifyClient.Iconify.Sets` | src/Icons/src/Iconify.php:96-103 | the new memo, the counters and the result are those of `ResolveSets` on the old state; no icon request is issued |
| `IconifyClient.Iconify.MetadataFor` | src/Icons/src/Iconify.php:44-47 | resolves the index as `sets()` does, then returns `MetadataFor` on it, or passes on the resolution error |
| `IconifyClient.Iconify.FetchIcon` | src/Icons/src/Iconify.php:49-76 | resolves the index, then returns `FetchIcon` on it; the metadata request is logged only when the prefix is known |
| `IconifyClient.Iconify.FetchSvg` | src/Icons/src/Iconify.php:78-94 | resolves the index, then returns `FetchSvg` on it; the SVG request is logged only when the prefix is known |

## Left out

- HTTP transport: `ScopingHttpClient`, `request`, `toArray` and `getContent` are foreign calls. Their outcomes are inputs (`Transport`, `JsonBody`). Requests are logged as paths relative to `endpoint`; resolving a path against the base URI is not modelled.
- JSON decoding is not modelled. A metadata response is either the decoded `icons` object or `Undecodable`. A response without an `icons` key is an empty `icons` map. Shapes where `icons` or an entry is not an object are not represented.
- The cache store's TTL, persistence and locking are not modelled. Its answer is a `Lookup`: an index it held, an index computed by `GET /collections`, or the exception that computation threw.
- The constructor's `class_exists(HttpClient::class)` check (lines 37-39) is an environment check. It is not modelled.
- Dimensions are natural numbers rendered in decimal. Float or numeric-string dimensions are not modelled, and neither is how PHP formats them with `%s`.
- Set metadata keeps only the default `width` and `height`. The other keys of a collection entry (name, author, licence, ...) are not modelled. `IconifyClient.Iconify.MetadataFor` returns the modelled entry.
- A prefix mapped to JSON `null` in the collection index is not represented. The code's `isset` and `??` would treat it as absent.
- Exception message texts are not modelled.
- Behaviour when several threads reach the first `sets()` call at once is not modelled. The model is sequential.
- The `Icon` value class (`Svg/Icon`) is not part of this model. Its constructor's own checks are not modelled.
