# Movie synopsis blender — verified model of its deterministic core

The program picks random rows from a movie dataset, takes a movie id from
each row's URL, scrapes one synopsis per id from IMDb, and asks a chat
completion service to blend each pair of synopses into a new invented one.
Most of it is glue around pandas, requests, BeautifulSoup and OpenAI. This
project models the deterministic part and proves what it does:

- `limited_movies`, the argparse type function for `--num`. It parses the
  argument as Python's `int()` does and accepts it only within
  `[MIN_FILMS, MAX_FILMS] = [1, 10]`.
- the id extraction of `get_random_movie_id`. The id is what follows the
  first `"title"` in the row's URL text, as `str.partition` gives it.
- `get_synopsis` over an abstract HTTP response. The URL is `IMDB_URL + id`.
  Status 4xx/5xx raises `HTTPError`. A missing meta tag gives `None`. A
  present tag gives its `content` stripped, defaulting to `''`.
- `get_films_dict`. N drawn id pairs become a dict with keys `1..N` in draw
  order. Each value pairs the two fetch results.
- the prompt loop of `generate_new_synopsis`: header, one block per dict
  item in insertion order, fixed instructions. Then the stripping of the
  completion text.

Modules (one file each):

- `Wrappers` (`wrappers.dfy`): `Option`, and `Result` standing for a value or a
  propagated exception.
- `PyText` (`pytext.dfy`): the Python string builtins the code relies on.
  These are `str.strip()`, `str.partition`, `str(int)` and `int(str)` in
  base 10. `str.strip()` and `int()` skip different whitespace (`Spaces`):
  `int()` leaves the separators U+001C..U+001F in place, which `strip()`
  cuts.
- `Utils` (`utils.dfy`): `src/utils.py`. These are pure functions; the random
  sampler and the HTTP server are function parameters.
- `Gpt` (`gpt.dfy`): `src/gpt.py`. The prompt is built by a method with a loop,
  proved equal to the specification function `UserPrompt`. The completion
  service is a function parameter.

Modelling choices:

- The random draw is `draw: nat -> string`, the URL text of the i-th sampled
  row. Pair k of `get_films_dict` uses draws 2k and 2k+1, the order in which
  the list comprehension calls the sampler.
- The web site is `server: string -> Response`. A response is a status code
  and, from the parsed page, the first `meta` tag with `data-id="main"` and
  `name="description"`, if any. That tag's `content` attribute may be missing.
- A Python dict is a sequence of `Entry(key, (syn1, syn2))` in insertion
  order. `DistinctKeys` and `Keys` give its dict reading.
- `requests`' `raise_for_status` raises exactly for `400 <= status < 600`. The
  model uses that rule, so a 1xx or 3xx status is read like a success.
- A BeautifulSoup tag is always truthy, so `if meta_tag:` is "a tag was found".
- An f-string renders `None` as the text `None` (`Gpt.Render`).

Points where the code behaves otherwise than its comments or a quick reading suggest (the model follows the code):

- An HTTP error is any 4xx/5xx status, not every non-2xx status.
- An absent synopsis renders as `None`, not as an empty string.
- The id is a suffix of the row text, and it is empty when `"title"` does not
  occur. The code does not require a non-empty id.
- The out-of-range message says "must be < 1 and > 10", which is the wrong
  way round. `Utils.ArgErrorMessage` keeps that text. No lemma treats it as a
  requirement. `Utils.LimitedMovies` enforces `[1, 10]`.

## Model

| member | source | states |
|---|---|---|
| `Utils.LimitedMovies` | src/utils.py:85-104 | The argument is accepted exactly when `int()` reads it (only its own whitespace set skipped) as an integer in [1, 10], and the result is that integer. It is refused as "not an integer" exactly when `int()` fails, and otherwise as out of range with the parsed value. |
| `Utils.LimitedMoviesOfNumber` | src/utils.py:98-104 | For every integer n, the decimal text of n is accepted as n when 1 <= n <= 10 and refused as out of range otherwise. |
| `Utils.LimitedMoviesRejectsWord` | src/utils.py:98-101 | A word, the empty string and "\x1c5" are refused as "not an integer", before any range check. |
| `Utils.RandomMovieId` | src/utils.py:63 | The id is a suffix of the drawn URL text. It is empty when "title" does not occur, and otherwise it is the text after the first occurrence of "title". |
| `Utils.RandomMovieIdOfUrl` | src/utils.py:63 | For a URL text made of a part without "title", then "title", then a rest, the id is exactly that rest. |
| `Utils.MovieUrl` | src/utils.py:41 | The fetched URL is the base URL followed by the id verbatim; both can be read back from it. |
| `Utils.ReadSynopsis` | src/utils.py:43-51 | A response raises HTTPError exactly when its status is 4xx/5xx. It gives None exactly when the status passes and the tag is missing. A found tag gives an unpadded string cut from its content, or from '' when the attribute is missing. |
| `Utils.GetSynopsis` | src/utils.py:30-51 | The fetch raises HTTPError exactly when the movie URL's response has an error status. It gives None exactly when that page has no tag. An error is never turned into None. |
| `Utils.GetSynopsisReadsOnlyMovieUrl` | src/utils.py:41-43 | Two servers that answer the movie's URL alike give the same result: only `IMDB_URL + id` is fetched. |
| `Utils.ReadSynopsisOfTag` | src/utils.py:46-49 | A tag's content comes back with surrounding whitespace removed. A tag without content gives '' and never None. |
| `Utils.FetchAll` | src/utils.py:79-82 | The batch fails exactly when some fetch of some pair raises. Otherwise it has one entry per pair, in order, numbered consecutively, and holding both fetch results. |
| `Utils.GetFilmsDict` | src/utils.py:66-83 | A successful batch has exactly `num_films` entries with distinct keys. Entry k has key k+1 and holds the fetches of the k-th drawn pair. The batch fails exactly when some fetch raises HTTPError. |
| `Utils.FilmsDictKeys` | src/utils.py:79-83 | The keys of a successful batch are exactly 1..num_films. |
| `Utils.FilmsDictWithoutErrors` | src/utils.py:79-83 | A site that never answers 4xx/5xx always yields a full batch. A slot holds None exactly when the page of that movie has no tag; it is never dropped. |
| `Utils.SampleRowId` | src/utils.py:63 | The row text "0    /title/tt0000001/" yields the id "/tt0000001/". |
| `Utils.OneMovieBatch` | src/utils.py:66-83 | One film, that row, and a site answering "A detective investigates." give the batch {1: (that text, that text)}. |
| `PyText.Trim` | src/utils.py:48 | `str.strip()` (and the trimming inside `int()`) has no whitespace at either end. It is a contiguous piece of its input with only whitespace cut off on each side. |
| `PyText.TrimUnique` | src/utils.py:48 | Any cut of a string into whitespace, an unpadded middle and whitespace has the trim of the string as its middle. |
| `PyText.TrimUnpadded` | src/utils.py:48 | A string without whitespace at its ends is left unchanged. |
| `PyText.TrimPadding` | src/utils.py:48 | Whitespace added around a string does not change its trim. |
| `PyText.StripIdempotent` | src/gpt.py:66 | Stripping an already stripped completion changes nothing. |
| `PyText.FindFirst` | src/utils.py:63 | It finds the lowest index at which the separator occurs, or reports that it occurs nowhere. |
| `PyText.Partition` | src/utils.py:63 | `str.partition` gives three parts whose concatenation is the input. The middle part is the separator exactly when it occurs, no occurrence starts before the separator, and otherwise the result is `(s, '', '')`. |
| `PyText.IntToStringRoundTrip` | src/utils.py:99 | `int(str(n)) == n` for every integer n. |
| `PyText.ParseIntIgnoresPadding` | src/utils.py:99 | Whitespace that `int()` skips (the C-locale spaces and Unicode spaces above ASCII) around the argument does not change what `int()` reads. |
| `PyText.ParseIntOfPaddedFive` | src/utils.py:99 | `int(" 5\n")` is 5. |
| `PyText.ParseIntSeparators` | src/utils.py:99-101 | The argument "\x1c5" strips to "5" but fails `int()`, so the validator refuses it as not an integer. |
| `Gpt.UserPrompt` | src/gpt.py:38-56 | The prompt is the header "Synopses for Inspiration:\n", then the blocks of all items, then the fixed instruction block, each readable back at its place. |
| `Gpt.EmptyBatchPrompt` | src/gpt.py:38-56 | For an empty batch the prompt is exactly the header followed by the instructions. |
| `Gpt.BlocksAppend` | src/gpt.py:39-42 | The blocks of two consecutive runs of items are the blocks of the first followed by those of the second. |
| `Gpt.BlocksAt` | src/gpt.py:39-42 | The i-th item's block appears, whole, right after the blocks of the items before it. |
| `Gpt.PromptAround` | src/gpt.py:38-56 | For every item i, the prompt is the header, the blocks before i, the block of i ("Movie k:\nSynopsis 1 for Movie k: s1\nSynopsis 2 for Movie k: s2\n"), the blocks after i and the instructions. |
| `Gpt.BuildUserPrompt` | src/gpt.py:38-56 | The loop that appends one block per item yields exactly `UserPrompt` of the batch, whatever the verbose flag. |
| `Gpt.GenerateNewSynopsis` | src/gpt.py:19-67 | One request carries the system instruction and the assembled prompt. A service error propagates. Otherwise the result is the completion text stripped, with no whitespace at its ends. |
| `Gpt.OneMoviePrompt` | src/gpt.py:38-42 | The prompt of a one-item batch with key 1 has "Movie 1:" right after the header. |

## Left out

- CSV discovery and loading through `os.path` and pandas, including the file-existence assert. This is filesystem I/O and a foreign library.
- Random row sampling and pandas' `to_string` rendering of the sampled row. The rendered text is the `draw` parameter.
- The HTTP GET with its headers and timeout, and BeautifulSoup parsing. These are network I/O and a foreign library; the response is the abstract `Response`.
- Exceptions other than `HTTPError` raised by `requests.get` (connection failure, timeout) are not modelled. They propagate through the whole run unchanged.
- The server is a function of the URL, so two fetches of the same URL in one run get the same answer. A live site need not behave that way.
- The OpenAI `ChatCompletion.create` call, the dotenv/environment key loading and the network behind it. The request is built (`Gpt.Request`), and the service is the `complete` parameter returning the first choice's text or an error.
- argparse wiring, `main`, and every `print`, including the verbose echo of each block. They only produce console output.
- Utils.LimitedMovies: since the 2022 security releases (3.11, 3.10.7, 3.9.14, 3.8.14, 3.7.14) `int()` refuses a decimal literal of more than 4300 digits (the default `sys.set_int_max_str_digits` limit), so such an argument is "Must be an integer"; the model reads it and reports it out of range. The limit depends on the interpreter version and its settings.
- `int()` accepts non-ASCII decimal digits; the model accepts only ASCII digits with single underscores between them.
- `str.partition` raises `ValueError` on an empty separator; `PyText.Partition` requires a non-empty one, as the only caller passes "title".
- `tests/test_utils.py:20` is cut off in the source and asserts nothing usable.
