# rss-feed-agg: API-key parsing and record conversion

A Dafny model of the two pieces of sequential logic in the request-serving
side of the RSS feed aggregator:

- **The API-key header parser** (`GetAPIKey`, module `Auth`). A request
  authenticates with a header `x-api-key: ApiKey <key>`. The parser takes the
  header value, refuses an empty value ("no auth info found"), splits the
  value on every single space and refuses anything that does not give exactly
  two parts ("malformed auth header"), refuses a first part other than the
  case-sensitive word `ApiKey` ("malformed first part of auth header"), and
  otherwise returns the second part. Go's `(string, error)` result is the
  datatype `KeyResult(key, err)`, where `err == None` is a nil error; the
  error texts are given by `Auth.Message`. The parser relies on Go's
  `strings.Split`, modelled in module `GoStrings` for a one-character
  separator: `n` separators give `n + 1` parts and the empty string gives
  one empty part. The part count is stated through `multiset(val)[' ']`,
  the number of spaces in the value.
- **The database-to-API record converters** (module `Handlers`). Single-record
  converters for users, feeds, feed follows and posts are functions; the
  three slice converters allocate an array of the input's length (Go's
  `make`) and fill it index by index, as methods with loop invariants. A
  post's nullable description (`sql.NullString`) becomes an `Option<string>`,
  which is `Some` exactly when the stored value is valid.

Identifiers (`uuid.UUID`) and timestamps (`time.Time`) are abstract types
that only support equality and have a zero value (needed for the zero-filled
arrays `make` allocates).

### Record shapes

The database records are modelled with exactly the fields the converters
read, which does not match the generated declarations in
`internal/database/models.go`:

- `User` there (lines 22-28) has no `Email`, yet the user converter reads
  `dbUser.Email` (`internal/handlers/models.go:43`); `DbUser` has `email`.
- `Feed.UserID` there (line 19) is a `uuid.NullUUID`, yet the converter copies
  it into the plain `uuid.UUID` of the API feed (`internal/handlers/models.go:62,82`);
  `DbFeed.userId` is a plain `Uuid`.
- `Post` and `FeedFollow` are not declared there at all; `DbPost` and
  `DbFeedFollow` follow the fields the converters read.

The declarations shown cannot be the ones the converters compile against,
so the converters are followed.

## Model

| member | source | states |
|---|---|---|
| GoStrings.Split | internal/utils/auth.go:15 | splitting on a one-character separator gives one more part than there are separators in the string, and no part contains the separator |
| GoStrings.JoinSplit | internal/utils/auth.go:15 | joining the parts of a split with the separator gives back the original string, so splitting loses nothing |
| GoStrings.SplitNoSeparator | internal/utils/auth.go:15 | a string with no separator splits into exactly itself |
| GoStrings.SplitAtFirstSeparator | internal/utils/auth.go:15 | the first part of `a + sep + b` is `a` when `a` holds no separator, and the remaining parts are those of `b` |
| GoStrings.SplitJoin | internal/utils/auth.go:15 | joining separator-free parts and splitting the result gives the same parts back |
| Auth.MessageInjective | internal/utils/auth.go:12-21 | the three error texts ("no auth info found", "malformed auth header", "malformed first part of auth header") are pairwise different, so a caller reading only the error text can tell the refusals apart |
| Auth.GetAPIKey | internal/utils/auth.go:9-25 | an error always comes with an empty key; "no auth info found" exactly when the value is empty; "malformed auth header" exactly when the value is non-empty and does not hold exactly one space (so zero, two or more spaces, doubled or trailing spaces); "malformed first part" exactly when it holds one space but does not start with "ApiKey "; on success the value is "ApiKey " followed by the returned key, which contains no space |
| Auth.PrefixMeansScheme | internal/utils/auth.go:15-22 | a value starting with "ApiKey " has "ApiKey" as the first part of its split, so the scheme check passes |
| Auth.RoundTrip | internal/utils/auth.go:15-24 | for every key without a space, including the empty key, parsing "ApiKey " followed by the key succeeds and returns exactly that key |
| Handlers.ConvertUser | internal/handlers/models.go:36-54 | the API user has the stored user's ID, Name, CreatedAt, UpdatedAt, ApiKey and Email, and its access and refresh tokens are the arguments, the conditional assignments being equivalent to copies since an unset token is "" |
| Handlers.ConvertUserInjective | internal/handlers/models.go:36-54 | two conversions give the same API user exactly when the stored users and both tokens are equal |
| Handlers.ConvertFeed | internal/handlers/models.go:75-84 | the API feed has the stored feed's ID, Name, CreatedAt, UpdatedAt, Url and UserID |
| Handlers.ConvertFeedInjective | internal/handlers/models.go:75-84 | two stored feeds convert to the same API feed exactly when they are equal |
| Handlers.ConvertFeeds | internal/handlers/models.go:97-103 | the result is a new array as long as the input (empty for an empty input), whose element i is the conversion of input element i, so order is kept |
| Handlers.ConvertFeedFollow | internal/handlers/models.go:113-121 | the API feed follow has the stored one's ID, CreatedAt, UpdatedAt, UserID and FeedID |
| Handlers.ConvertFeedFollowInjective | internal/handlers/models.go:113-121 | two stored feed follows convert to the same API feed follow exactly when they are equal |
| Handlers.ConvertFeedFollows | internal/handlers/models.go:123-129 | the result is a new array as long as the input whose element i is the conversion of input element i |
| Handlers.ConvertPost | internal/handlers/models.go:142-158 | the API post has the stored post's ID, Title, Url, FeedID, PublishedAt, CreatedAt and UpdatedAt; its description is present exactly when the stored one is valid, and then equals the stored text |
| Handlers.ConvertPostVisible | internal/handlers/models.go:143-146 | two stored posts convert to the same API post exactly when they agree on everything except the text of an invalid description, which is dropped even when non-empty |
| Handlers.ConvertPosts | internal/handlers/models.go:160-166 | the result is a new array as long as the input whose element i is the conversion of input element i |

## Left out

- The feed-ingestion scraper started at `cmd/main.go:58` (`RSSFeedScrapper`): its source is not part of this model, and it is concurrent, timer-driven network and database I/O.
- `cmd/main.go`: environment lookups, Redis and Postgres connections, route registration, graceful shutdown and the health and error handlers are process wiring and I/O.
- `http.Header.Get`: the case-insensitive header-name lookup and multiple values are library behaviour; the parser is modelled on the resulting value string, "" when the header is absent.
- Go strings are byte strings, while the model's strings are sequences of characters, so a header value holding bytes that are not valid UTF-8 cannot be written as a model input; the parser compares only with the ASCII space and the ASCII word `ApiKey`, so its behaviour does not depend on this.
- `strings.Split` is modelled only for the one-character separator the parser uses.
- JSON encoding of the API records (struct tags, `omitempty` on the tokens, nil versus empty slices) is done by `encoding/json` and is not modelled.
- The internal structure of `uuid.UUID` and `time.Time`: both are abstract types with equality only.
- The description pointer of an API post is modelled as an `Option` value; each post's pointer points at that post's own copy of the stored text, so no sharing is lost.
- The slice converters take the input slice as a sequence (it is only read) and return a fresh array; slice capacity is not modelled.
