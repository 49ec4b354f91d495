# vkrss in Dafny

A model of the core of vkrss, a PHP script that turns the wall of a vk.com user or
community into an RSS feed, with proofs about that model. It covers:

- the helper functions of `utils.php`:
  - `utf8_strrev`, which reverses a string by code point;
  - `logical_value`, the "flag is set" test on an array element;
  - `build_url`, which joins URL components back into a URL.
- the `ProxyDescriptor` constructor:
  - it splits a proxy given as `[type://][login:password@]address[/]`;
  - it reconciles the parts with the type, login and password passed separately;
  - it rejects each kind of inconsistency with its own error.
- the message logic of the `APIError` exception.
- the `Vk2rss` class: the request URL of `getContent`, and the feed that `generateRSS` builds from the decoded answer.

Layout, one Dafny module per file:

| file | module | contents |
|---|---|---|
| `wrappers.dfy` | `Wrappers` | `Option` and `Result` |
| `strings.dfy` | `Strings` | ASCII lower-casing, first occurrence, substring, `implode`, decimal rendering |
| `php.dfy` | `Php` | PHP scalars (`null`, booleans, integers, strings), `empty()` and string conversion |
| `utils.dfy` | `Utils` | `utf8_strrev`, `logical_value`, `build_url` |
| `proxy.dfy` | `Proxy` | the proxy pattern, its errors, the `ProxyDescriptor` class |
| `api_error.dfy` | `ApiErrors` | `APIError` |
| `vk2rss.dfy` | `Vk2rssFeed` | the decoded wall, the feed and the `Vk2rss` class |

Modelling choices:

- **Strings.**
  - A string is a sequence of code points, so reversing by code point is reversing the sequence.
  - `mb_strtolower` lowers ASCII letters only.
- **Values and missing keys.**
  - PHP values that matter here are `null`, booleans, integers and strings.
  - A missing array key or property is `None` or `Null`.
- **The proxy pattern.**
  - The regular expression `^(?:(?P<type>[^:]+?)://)?(?:(?<login>[^/:]+):(?<password>[^/@]+)@)?(?P<address>[^/@]+?)/?$` is stated twice.
  - Once as a predicate: `Decomposes` says which group values make up the string.
  - Once as a deterministic splitter: `MatchAddress`.
  - The proofs show the splitter finds a decomposition exactly when one exists, and that the decomposition is unique.
- **Supported proxy types** are an input: the list of keys that `ProxyDescriptor::init` would register.
- **The constructor.** `ProxyDescriptor.New` allocates the object and runs the constructor body step by step. It returns `Failure(error)` where PHP throws. `Construct` is the same computation as a function, and the lemmas are stated about it.
- **`generateRSS`.**
  - It takes the decoded `response` array as input and returns the feed as a value.
  - The first element (the post count) never becomes an item.
  - The attachment `switch` has five arms; any other type is `Other` and adds nothing.
- **The unassigned `$owner_id`.** `generateRSS` uses a local `$owner_id` that it never assigns. The item link and the audio link are therefore modelled as PHP renders them: `http://vk.com/wall_<post id>`.
- **This revision only.** Later revisions of vkrss flatten reposts, synthesise titles and extract hashtags. None of that is in this code of `utils.php` and `Vk2rss.php`, and the model follows the code.

## Model

| member | source | states |
|---|---|---|
| Php.Empty | Vk2rss.php:20-22 | definition of PHP's `empty()` on the modelled values: `null`, `false`, `0`, `''` and `'0'` are empty |
| Php.ToString | Vk2rss.php:21-25 | definition of PHP's string conversion in concatenation and interpolation: `null` gives `''`, `true` gives `1`, `false` gives `''`, integers their decimal form |
| Strings.Lower | utils.php:66 | lower-casing keeps the length, maps every character through the ASCII lower-case map and leaves no upper-case letter |
| Strings.LowerIdempotent | utils.php:70 | lower-casing an already lowered type changes nothing |
| Strings.LowerOfLowerCase | utils.php:77 | a string without upper-case letters, such as the default `http`, is its own lower-case form |
| Strings.ContainsIff | utils.php:436 | the `mb_strpos(...) !== false` test holds exactly when the needle occurs at some position |
| Strings.DecimalRoundTrip | utils.php:45 | the decimal text of a port reads back as the same number |
| Utils.Utf8StrRev | utils.php:13-17 | the reversed string has as many code points as the original |
| Utils.Utf8StrRevAt | utils.php:13-17 | position `k` of the result holds the code point `k` places from the end |
| Utils.Utf8StrRevInvolution | utils.php:13-17 | reversing twice gives back the original string |
| Utils.LogicalValue | utils.php:29-33 | definition of `logical_value`; what it means is stated by `LogicalValueMeaning` and `LogicalValueEdgeCases` |
| Utils.DecimalIsNotFalse | utils.php:32 | no integer's string form lower-cases to `false` |
| Utils.LogicalValueMeaning | utils.php:20-33 | `logical_value` is true exactly when the key is present and its value is not `null`, `false`, `0`, `'0'` or any case of `'false'` (so `''` counts as true) |
| Utils.LogicalValueEdgeCases | utils.php:25-32 | absent key and `null` give false; `''` gives true; `0`, `'0'`, `false` and every case of `'false'` (e.g. `'FALSE'`) give false |
| Utils.BuildUrl | utils.php:42-53 | definition of `build_url` as written; its partners are `BuildUrlAsWrittenAgrees`, `BuildUrlUserInfo` and `BuildUrlUserZeroCollision` |
| Utils.BuildUrlIntended | utils.php:36-53 | the inverse of `parse_url` that the doc comment promises, with `@` written whenever a user or password is present; its partner is `BuildUrlIntendedRoundTrip` |
| Utils.QueryRoundTrip | utils.php:50-51 | a `?query#fragment` tail parses back into its query and fragment |
| Utils.QueryFragmentRoundTrip | utils.php:50-51 | the optional query and fragment parse back as given, absent ones as absent |
| Utils.TailRoundTrip | utils.php:49-52 | path, query and fragment, in that order, parse back as given |
| Utils.UserInfoRoundTrip | utils.php:46-47 | `user[:pass]` parses back into user and optional password |
| Utils.HostPortRoundTrip | utils.php:44-45 | `host[:port]` parses back into host and optional port, for a non-empty host without `:` and a port from 0 to 65535 |
| Utils.AuthoritySplitAt | utils.php:48 | with an `@`, the authority splits into user information and `host[:port]` |
| Utils.AuthorityWithUser | utils.php:46-48 | `user[:pass]@host[:port]` parses into the user, the optional password and whatever `host[:port]` parses into |
| Utils.AuthorityWithoutAt | utils.php:44-45 | without an `@`, the whole authority is `host[:port]` |
| Utils.AuthorityRoundTrip | utils.php:44-48 | the authority written for well-formed components parses back into user, password, host and port |
| Utils.AuthorityEnds | utils.php:49-52 | the authority holds no `/`, `?` or `#`, and what follows it starts with one of them |
| Utils.UrlSplit | utils.php:52 | `scheme://authority tail` parses into the scheme, whatever the authority parses into, and whatever the tail parses into |
| Utils.BuildUrlIntendedRoundTrip | utils.php:36-53 | round trip: parsing the built URL of well-formed components gives back exactly those components |
| Utils.BuildUrlAsWrittenAgrees | utils.php:42-53 | the code as written agrees with the intended form, and round-trips, except for a PHP-false user without a password |
| Utils.BuildUrlUserInfo | utils.php:46-48 | as written, `@` appears iff the user is PHP-truthy or a password is given; with no scheme or port, `:` appears iff a password is given |
| Utils.BuildUrlUserZeroCollision | utils.php:46-48 | as written, user `'0'` without a password gives the same URL as a different set of components (see Findings) |
| Proxy.MatchAddress | utils.php:67-68 | a match returned by the splitter is a decomposition of the string under the pattern |
| Proxy.TypeFound | utils.php:67 | a type group ends at the first `:`, followed by `://` |
| Proxy.AddressTailFound | utils.php:67 | the address group is the rest without its optional final `/` |
| Proxy.CredentialsFound | utils.php:67 | a `login:password@` prefix is split at its first `:` and the following `@` |
| Proxy.NoCredentialsFound | utils.php:67 | a rest without `@` has no login or password group |
| Proxy.RestFound | utils.php:67 | the groups after the type are recovered from their composition |
| Proxy.RestTypeFree | utils.php:67 | without a type group, the composed string does not look as if it had one |
| Proxy.MatchAddressComplete | utils.php:67-68 | every decomposition is the one the splitter returns, so the decomposition is unique and is always found |
| Proxy.InvalidAddressMessageNamesAddress | utils.php:108-110 | the intended invalid-address message contains the rejected address |
| Proxy.InvalidAddressMessageAsWrittenLosesAddress | utils.php:109 | as written, an address naming no local variable yields `Invalid proxy address: ''` (see Findings) |
| Proxy.Message | utils.php:72-109 | definition of the exception message of each rejection, with the texts of the source; the invalid-address text is the corrected one (see Findings) |
| Proxy.ResolveType | utils.php:66-78 | definition of the type reconciliation; what it means is stated by `ResolveTypeMeaning` |
| Proxy.ResolveCredential | utils.php:85-97 | definition of the login and password reconciliation; what it means is stated by `ResolveCredentialMeaning` |
| Proxy.Construct | utils.php:64-111 | definition of what the constructor produces, from the match of the address onwards; its partners are `ConstructValid` and `ConstructRoundTrip` |
| Proxy.ConstructFrom | utils.php:69-111 | definition of the constructor's checks after matching, in the source's order; stated by `ConstructType`, `ConstructCredentials` and `ConstructAddress` |
| Proxy.ConstructWithType | utils.php:85-111 | definition of the checks after the type is settled; `StoreCredentials` is proved against it |
| Proxy.ResolveTypeMeaning | utils.php:66-78 | the resolved type is lower-case; the address's type wins, then the argument, then `http`; two different types fail |
| Proxy.ConstructType | utils.php:69-83 | the stored type is the resolved one and is supported; a type conflict fails exactly when resolution does; an unsupported type fails with that type and the allowed list |
| Proxy.ConstructTypeArgumentStable | utils.php:66-77 | the reconciled type passed back as the type argument reconciles to itself, so construction does not change |
| Proxy.ResolveCredentialMeaning | utils.php:85-97 | the login or password in the address wins over the argument; the two conflict exactly when both are given and differ |
| Proxy.ConstructCredentials | utils.php:85-106 | stored credentials are the reconciled ones, both given or both absent, and the login has no `:`; otherwise the unpaired or colon error is raised |
| Proxy.ConstructAddress | utils.php:108-111 | the stored address is the address group; an empty group fails exactly when everything else would be accepted |
| Proxy.ConstructValid | utils.php:64-111 | every accepted descriptor comes from a matching address with credentials, scheme and trailing `/` removed; its type is supported and lower-case, and its credentials are paired |
| Proxy.ConstructRoundTrip | utils.php:64-111 | a string composed from groups and passed alone gives back exactly those groups, with the type lower-cased or defaulted to `http` |
| Proxy.GroupsAccepted | utils.php:69-111 | valid groups without separate arguments are accepted unchanged |
| Proxy.ProxyDescriptor.GetAddress | utils.php:152-155 | a valid descriptor's address is non-empty and holds no `/` or `@` |
| Proxy.ProxyDescriptor.GetType | utils.php:160-163 | a valid descriptor's type is non-empty and lower-case |
| Proxy.ProxyDescriptor.GetLogin | utils.php:168-171 | a valid descriptor's login has no `:` |
| Proxy.ProxyDescriptor.GetPassword | utils.php:176-179 | a valid descriptor has a password exactly when it has a login |
| Proxy.ProxyDescriptor.New | utils.php:64-112 | construction succeeds with a fresh valid descriptor holding the fields of `Construct`, or fails with its error |
| Proxy.ProxyDescriptor.Store | utils.php:66-111 | the constructor body, run step by step after matching, writes the fields of `ConstructFrom` or returns its error |
| Proxy.ProxyDescriptor.StoreType | utils.php:66-83 | the type stage: stores the resolved, supported type, or reports the type conflict or the unsupported type |
| Proxy.ProxyDescriptor.StoreCredentials | utils.php:85-111 | with the type stored and left unchanged, stores login and password and then the address group, or reports the first credential or address error |
| ApiErrors.ErrorMessage | utils.php:433-443 | definition of the message for each error code; what it means is stated by the four `ApiError...` lemmas |
| ApiErrors.NewApiError | utils.php:431-447 | the exception code is always 400; the API error code and the request URL are kept; the message is never shorter than the API's |
| ApiErrors.ApiErrorKeepsMessage | utils.php:433-443 | the API's own message is always part of the exception message |
| ApiErrors.ApiErrorExpiredToken | utils.php:435-439 | for error 5, an "invalid session" message gets the expired-token note in front; any other message is unchanged |
| ApiErrors.ApiErrorRedirect | utils.php:440-442 | for error 17, the message is followed by `: ` and the redirect URI (nothing when it is absent) |
| ApiErrors.ApiErrorOtherCodes | utils.php:434-443 | every other error code keeps the API's message unchanged |
| Vk2rssFeed.Fragment | Vk2rss.php:59-80 | definition of the HTML each attachment type adds; stated by `FragmentShape` |
| Vk2rssFeed.Description | Vk2rss.php:55-82 | definition of an item's description, the text and then the fragments; `DescribePost` is proved against it |
| Vk2rssFeed.FeedFor | Vk2rss.php:42-87 | definition of the whole feed; `GenerateRss` is proved against it and `FeedNamesWall` and `ItemsOfWall` state it |
| Vk2rssFeed.WallSelector | Vk2rss.php:19-24 | definition of the wall selection in the query; `RequestUrl` is proved against it and `DomainWins` states it |
| Vk2rssFeed.FragmentList | Vk2rss.php:58-81 | one fragment per attachment |
| Vk2rssFeed.Items | Vk2rss.php:51 | one item per element after the first |
| Strings.ConcatAppend | Vk2rss.php:58-81 | appending pieces one by one with `.=` gives the concatenation of any split of the pieces, in order |
| Vk2rssFeed.FragmentsAppend | Vk2rss.php:58-81 | fragments of concatenated attachment lists are the concatenated fragments, in order |
| Vk2rssFeed.FragmentShape | Vk2rss.php:59-80 | photo, audio, doc, link and video each add a fragment starting with `<br>`; any other type adds nothing |
| Vk2rssFeed.DescriptionAppend | Vk2rss.php:57-82 | one more attachment appends exactly its fragment after the existing description |
| Vk2rssFeed.DescriptionWithoutAttachments | Vk2rss.php:55-57 | a post without attachments is described by exactly its text |
| Vk2rssFeed.OtherAttachmentIgnored | Vk2rss.php:59-80 | an attachment of an unhandled type leaves the description as if it were absent |
| Vk2rssFeed.DescriptionStartsWithText | Vk2rss.php:55 | every description begins with the post's text |
| Vk2rssFeed.ItemsOfWall | Vk2rss.php:51-87 | items are produced for elements 1 to count-1, in order, each from its own post; element 0 never affects them |
| Vk2rssFeed.FeedNamesWall | Vk2rss.php:42-48 | feed title, link and description use the domain when non-empty, else the owner id; the language is `ru-ru` |
| Vk2rssFeed.DomainWins | Vk2rss.php:19-24 | a non-empty domain selects the wall whatever the owner id; otherwise a non-empty owner id does; otherwise nothing is added |
| Vk2rssFeed.Vk2rss.constructor | Vk2rss.php:12-15 | the defaults: the `wall.get` URL, no owner id or domain, a count of 10 |
| Vk2rssFeed.Vk2rss.RequestUrl | Vk2rss.php:19-25 | the request URL is the method URL, `?`, the wall selection, then `&count=` and the count |
| Vk2rssFeed.Vk2rss.GenerateRss | Vk2rss.php:37-87 | the feed built by the loop is exactly `FeedFor` of the wall: the channel elements, then one item per post in order |
| Vk2rssFeed.Vk2rss.DescribePost | Vk2rss.php:55-84 | the description built attachment by attachment equals the post's text followed by all fragments in attachment order |

## Left out

- `ConnectionWrapper` (utils.php:184-418): HTTP transport through `file_get_contents` or cURL, stream contexts, throttling and header parsing, all of it I/O.
- `ProxyDescriptor::init` and `getSupportedTypes` (utils.php:118-147): they depend on loaded extensions and PHP settings. The supported types are a parameter instead.
- The cURL request and `json_decode` in `Vk2rss` (Vk2rss.php:26-33, 41): the decoded answer is an input. An absent or erroneous answer is not modelled, and neither is an element after the first that is not a post (`WellFormedWall`).
- `FeedWriter` and `FeedItem` (Vk2rss.php:38-40, 52, 86-88): they are not part of this model. The feed is returned as a record, with no XML.
- The `pubDate` channel element (Vk2rss.php:49): it reads the clock.
- `index.php`: request handling, `$_GET`, headers and response codes.
- Unicode case folding: `mb_strtolower` is modelled on ASCII letters only.
- Invalid UTF-8 input to `utf8_strrev`: strings are sequences of code points.
- PHP floats, arrays and objects as flag values in `logical_value`: only `null`, booleans, integers and strings are modelled.
- Proxy.MatchAddress: PCRE's `$` also matches before a final newline, and the model does not capture this. A final newline is read as part of the address, so `host\n` is stored as `host\n` where PHP stores `host`. An address whose `/` comes just before the final newline (`host/\n`) matches nothing in the model, where PHP accepts it as `host`.
- Utils.BuildUrlIntendedRoundTrip: the partner is a reference parser for absolute URLs with an authority, not the whole of PHP's `parse_url`. It fails, as `parse_url` does, on an empty host and on a port above 65535. It does not rewrite control characters to `_`, and it takes any text before `://` as the scheme. The round trip is therefore stated only on components that `WellFormedUrl` admits: scheme characters `[A-Za-z0-9+.-]`, a non-empty host, ports 0 to 65535, and no control characters.

## Findings

| source | as written | input that shows it | evidently intended | confidence | as-written member | corrected member |
|---|---|---|---|---|---|---|
| utils.php:46-48 | the `@` after the user information is written only when `$user` is PHP-truthy or a password is given | `user = '0'`, no password, host `example.com`: gives `http://0example.com`, the same as host `0example.com` with no user | write the `@` whenever a user or password component is present, giving `http://0@example.com`, which parses back | high, not executed | Utils.BuildUrlUserZeroCollision | Utils.BuildUrlIntendedRoundTrip |
| utils.php:109 | `'${$address}'` is PHP's variable-variable syntax: it interpolates the local variable whose name is the address | address `10.0.0.1:3128/x` names no variable, so the message reads `Invalid proxy address: ''` | quote the address itself: `Invalid proxy address: '10.0.0.1:3128/x'` | high, not executed | Proxy.InvalidAddressMessageAsWrittenLosesAddress | Proxy.InvalidAddressMessageNamesAddress |
