# WeVoteServer: Twitter lookup logic and configuration helpers

This project models two small pieces of decision logic from the WeVoteServer
Django application, and proves properties of them in Dafny.

- **`import_export_twitter/functions.py`** (module `ImportExportTwitter`,
  file `import_export_twitter.dfy`):
  - `retrieve_twitter_user_info` fetches one Twitter profile. The handle
    argument is normalised first: `False`, `None`, and any string whose
    lower case is `"false"` or `"none"` become `""`.
  - It then picks a request. A positive user id wins. Otherwise a
    non-empty handle is used. Otherwise it fails with "missing variable".
  - It builds the result envelope: `status`, `success`,
    `twitter_handle`, `twitter_handle_found` and `twitter_json`.
  - There are three outcomes: a profile is found, the provider signals a
    rate limit, or the provider rejects the request. A rejection carries
    structured error entries, and every message is concatenated into the
    status. The tweepy client is a `provider` function from requests to
    outcomes.
  - The method returns the call it made (`None` when the provider was not
    consulted). It also returns the messages passed to `handle_exception`.
  - `retrieve_twitter_user_possibilities` ranks the users a name
    search returns. It sorts them stably by follower count, in descending
    order. Each candidate gets a likelihood percentage against the shared
    follower total. `success` is true exactly when the list is non-empty.
- **`config/base.py`** (module `Config`, file `config.dfy`):
  - `get_environment_variable` looks in the JSON file first, then
    `os.environ`, and otherwise raises `ImproperlyConfigured`. Both maps are
    parameters: the decoded JSON file (empty when the file is missing) and
    the environment.
  - `get_environment_variable_default` looks only in `os.environ`.
  - `convert_logging_level` and `lookup_logging_level` turn a log-level
    name into a number. The lookup upper-cases the name to test it, but
    converts the original text.
  - The model keeps the string formatting of `get_postgres_version`.

Helper modules: `Wrappers` (`Option`, `Result`) and `Text` (ASCII case
mapping, the decimal text of `str(int)`, and Python's clamping slice).

Behaviour of the code worth knowing:

- A successful lookup stores whatever record the provider returned, even
  an empty one.
- The model keeps `EmptyDict` (the `{}` of the missing-variable path) and
  `Record(map[])` (an empty profile from the provider) apart. In Python
  both are `{}`, and the program cannot tell them apart.
- With no positive id the separator is still one space, so a handle-only
  rejection reads `"<handle>  [message] "`.
- A non-empty search result whose follower counts are all zero raises
  `ZeroDivisionError` (import_export_twitter/functions.py:92). The model
  returns `Failure(ZeroDivision)` there.

## Model

| member | source | states |
|---|---|---|
| `ImportExportTwitter.NormaliseHandle` | import_export_twitter/functions.py:28-36 | the normalised handle is either `""` or the string passed in, and never lower-cases to "false" or "none" |
| `ImportExportTwitter.NormaliseHandleBlanksExactlySentinels` | import_export_twitter/functions.py:28-36 | the handle becomes `""` exactly for `False`, `None`, the empty string and the case variants of "false"/"none"; every other string is kept unchanged |
| `ImportExportTwitter.NormaliseHandleIdempotent` | import_export_twitter/functions.py:28-36 | normalising an already normalised handle changes nothing |
| `ImportExportTwitter.ResolveRequest` | import_export_twitter/functions.py:41-57 | a positive id is used first, even when a handle is also given; a non-empty handle is used second; there is no request exactly when neither exists |
| `ImportExportTwitter.SuccessStatus` | import_export_twitter/functions.py:45-51 | every success status starts with `TWITTER_RETRIEVE_SUCCESSFUL-` followed by more text, and differs from the missing-variable and rate-limit statuses |
| `Text.NatToString` | import_export_twitter/functions.py:45 | the text of a non-negative id, as `str(twitter_user_id)` writes it, is non-empty, is all decimal digits, and starts with `0` only for the number 0 |
| `ImportExportTwitter.SuccessStatusRoundTrip` | import_export_twitter/functions.py:41-52 | a success status can be read back as the request that was made (by id or by handle), and the missing-variable and rate-limit statuses read as no request |
| `ImportExportTwitter.SuccessStatusInjective` | import_export_twitter/functions.py:41-52 | two different requests never give the same success status |
| `ImportExportTwitter.RejectedStatusPrefix` | import_export_twitter/functions.py:64-65 | the handle part is `<handle> ` when a handle is given and empty otherwise; the id part that follows is `<id> ` when the id is positive and a single space otherwise; the length is the sum of the two parts, so a handle-only prefix is `<handle>  ` with two spaces and the prefix with neither is `" "` |
| `ImportExportTwitter.BuildRejectedStatus` | import_export_twitter/functions.py:62-69 | the nested loop builds the handle part, then the id part (or a single space), then one `[message] ` per entry of every error list |
| `ImportExportTwitter.AppendMessages` | import_export_twitter/functions.py:67-69 | the inner loop appends `[message] ` for every entry of one error list, in order, after the existing status |
| `ImportExportTwitter.ErrorDetailIsFlatMessages` | import_export_twitter/functions.py:66-69 | the appended detail is the bracketed messages of all entries, flattened, in provider order |
| `ImportExportTwitter.ErrorDetailMentionsEveryMessage` | import_export_twitter/functions.py:66-69 | every message of every error entry occurs, as `[message] `, inside the status detail |
| `ImportExportTwitter.RetrieveTwitterUserInfo` | import_export_twitter/functions.py:22-79 | the returned handle is the normalised one; the call follows the resolution order; the missing-variable path does not consult the provider and yields `success=false`, `found=false`, `{}` and the fixed status; a found record yields `success=true`, `found=true`, that record and the success status; a rate limit yields the fixed status with `[]` kept, reported once; a rejection yields the built status with `[]` kept, reported once; `success` holds exactly when a record was found |
| `ImportExportTwitter.SortByFollowersDescending` | import_export_twitter/functions.py:90 | the ranking has as many entries as the search results (order, permutation and stability in the lemmas below) |
| `ImportExportTwitter.SortSorted` | import_export_twitter/functions.py:90 | the ranking is non-increasing in follower count |
| `ImportExportTwitter.SortMultiset` | import_export_twitter/functions.py:90 | the ranking holds exactly the search results, each as often as it occurs |
| `ImportExportTwitter.SortStable` | import_export_twitter/functions.py:90 | candidates with the same follower count keep their provider order |
| `ImportExportTwitter.SortByFollowersDescendingCorrect` | import_export_twitter/functions.py:90 | the ranking is non-increasing in follower count, is a permutation of the search results, keeps provider order among equal counts (stability under `reverse=True`), and keeps the follower total |
| `ImportExportTwitter.TotalFollowers` | import_export_twitter/functions.py:91 | the follower total is zero exactly when every candidate has zero followers |
| `ImportExportTwitter.LikelihoodPercentage` | import_export_twitter/functions.py:92-99 | the share `r` is the floor of `followers * 100 / total`: `r * total <= followers * 100 < (r + 1) * total` |
| `ImportExportTwitter.FollowersWithinTotal` | import_export_twitter/functions.py:91 | each candidate's follower count is at most the shared denominator |
| `ImportExportTwitter.LikelihoodPercentageBoundsAndOrder` | import_export_twitter/functions.py:92-99 | a percentage against a total that bounds the count lies in 0..100, and more followers never give a smaller percentage |
| `ImportExportTwitter.LikelihoodsSumAtMost100` | import_export_twitter/functions.py:91-99 | the percentages against the shared denominator add up to at most 100 |
| `ImportExportTwitter.RetrieveTwitterUserPossibilities` | import_export_twitter/functions.py:82-106 | it fails (division by zero) exactly on a non-empty list with zero followers in all; otherwise there is one entry per candidate, in ranked order, each tagged with the search term and carrying that candidate's record and its share of the shared total (0..100, non-increasing); `success` holds exactly when the list is non-empty |
| `ImportExportTwitter.RankingExample` | import_export_twitter/functions.py:90-99 | counts 100, 300, 100 rank as 300 then the two hundreds in provider order, with percentages 60, 20, 20 |
| `Config.GetEnvironmentVariable` | config/base.py:34-52 | the JSON value is returned when the name is there, even if the environment also has it; otherwise the environment value; the lookup fails exactly when the name is in neither, with a message from which the name can be read back |
| `Config.MissingVariableMessage` | config/base.py:51 | the text "Unable to set the <name> variable from os.environ or JSON file" has the fixed length of its frame plus the name, and the name can be read back from it |
| `Config.GetEnvironmentVariableFound` | config/base.py:34-52 | each value returned was present under that name in the map it is tagged with |
| `Config.GetEnvironmentVariableDefault` | config/base.py:55-59 | the environment value when present, otherwise the default; the JSON map is never consulted |
| `Config.LookupsAgreeWithoutJsonEntry` | config/base.py:34-59 | when the JSON file has no entry for a name, a successful two-tier lookup returns what the default-valued lookup returns; the two-tier lookup fails exactly when the name is not in the environment, which is exactly when the default-valued lookup falls back to its default; a failure implies the default-valued lookup returns the default |
| `Config.ConvertLoggingLevel` | config/base.py:419-431 | a level number comes back exactly for the five exact names, and it is always one of 50/40/30/20/10 |
| `Config.ConvertLoggingLevelBijective` | config/base.py:419-431 | the names and the level numbers correspond one to one, in both directions |
| `Config.ConvertLoggingLevelIsCaseSensitive` | config/base.py:419-431 | "DEBUG" converts to 10, while "debug" and "Warn" convert to nothing |
| `Config.LookupLoggingLevel` | config/base.py:434-448 | a descriptor valid after upper-casing gives the conversion of the original text; otherwise a default valid after upper-casing gives the conversion of the default; otherwise ERROR (40) |
| `Config.LookupLoggingLevelNoneIff` | config/base.py:434-448 | the lookup gives no level exactly when the text it converts is valid only after upper-casing |
| `Config.LookupLoggingLevelExactName` | config/base.py:436-440 | an exact level name always yields its level, whatever the default |
| `Config.LookupLoggingLevelCaseQuirk` | config/base.py:436-440 | "DEBUG" gives 10 but "debug" gives no level |
| `Config.LookupLoggingLevelFallback` | config/base.py:441-448 | two examples: ("verbose", "DEBUG") falls back to the default and gives 10, and ("verbose", "loud") falls back to ERROR (40); the general rule is in `Config.LookupLoggingLevel` |
| `Config.PadVersion` | config/base.py:97 | a five-character version gets one leading space and is kept as the suffix; any other version is unchanged |
| `Config.GetPostgresVersion` | config/base.py:93-102 | a failed read gives "fail", and a formatted version is never "fail"; otherwise the length is the clamped six characters plus two dots |
| `Config.PostgresVersionKeepsDigits` | config/base.py:96-98 | for a version without dots (as `str(server_version)` of an integer always is), removing the two dots from the result gives back the first six characters of the padded version (one leading space for a five-character version) |
| `Config.PostgresVersionDotPositions` | config/base.py:98 | for a version without dots, the result has a dot exactly right after the first two and the first four characters of the padded version (clamped to its length), and nowhere else |
| `Config.PostgresVersionSixDigits` | config/base.py:96-98 | the six-digit version "120005" formats as "12.00.05" |
| `Config.PostgresVersionFiveDigits` | config/base.py:96-98 | the five-digit version "90624" is padded with one space and formats as " 9.06.24" |
| `Config.PostgresVersionShort` | config/base.py:96-98 | the short version "1" formats as "1..", because the slices clamp to the string's end |

## Left out

- tweepy (`OAuthHandler`, `API`, `get_user`, `search_users`) is a network client. A lookup's provider is a function from the request to its outcome. A search receives the first page of results as a list.
- `handle_exception` and the logger are external diagnostics. The model records only the messages passed to `handle_exception`, as the `reports` sequence.
- `positive_value_exists` is not part of this model. An id counts as present when it is `Some(n)` with `n > 0`, and a handle when it is a non-empty string. Ids of other Python types (numeric strings) are not modelled.
- Handles that are neither `False`, `None` nor a string are not modelled.
- RetrieveTwitterUserPossibilities: each percentage is the exact integer `(followers * 100) / total`. The source uses floating point, where `int(f / d * 100)` can land one below the exact floor (for example 29/100 gives 28).
- RetrieveTwitterUserPossibilities: the `state_code` parameter is dropped, because the source never uses it.
- RetrieveTwitterUserPossibilities: exceptions raised by the search call itself are not modelled, because the source does not catch them.
- SortByFollowersDescending: Python sorts the local list in place. The model sorts a value instead. The list is local, so no caller can observe the difference.
- LookupLoggingLevel: upper-casing maps ASCII letters only. Python's `str.upper()` also maps some non-ASCII letters onto ASCII ones (`'ı'` to `'I'`, `'ſ'` to `'S'`). For such descriptors the model's validity test differs.
- NormaliseHandle: lower-casing maps ASCII letters only. The sentinel test agrees with Python's for handles written in ASCII; non-ASCII letters are not case-mapped.
- GetEnvironmentVariableDefault: the default is a string. Python accepts a default of any type.
- GetEnvironmentVariable: JSON values are opaque (a type parameter). A JSON file whose top level is not an object is not modelled, nor are the exceptions other than `KeyError` that indexing it would raise.
- Import-time work is left out: reading `config/environment_variables.json` (its outcome is the JSON map parameter), all module-level settings, and the GeoIP file checks.
- `get_python_version`, `get_node_version` and `get_git_merge_date` are left out. They only run shell commands, glob files and read timestamps.
- `get_postgres_version`'s database read and its `print` are left out. The read is the `Option` parameter.
- Repeating a call with the same inputs and provider gives the same result. For the functions Dafny guarantees this. For the two methods, `RetrieveTwitterUserInfo` and `RetrieveTwitterUserPossibilities`, it follows from their `ensures`, which fix every output; the model states no separate lemma for it.
