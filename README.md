# Quant dashboard core, modelled in Dafny

This project models the computational core of a small stock dashboard (`main.py`). It has five parts:

- **RSI** (`compute_rsi`): the 14-period Relative Strength Index over a series of closing prices. It is the mean gain over the mean loss of the last `period` price differences, mapped through `100 - 100 / (1 + rs)`.
- **Score** (`score_and_message`): a 0..100 "attractiveness" heuristic. It starts at 50 and adds or subtracts points for the RSI, the P/E ratio and the daily percent change. The score then picks one of three tiers, each with its own colour, status label and advisory message.
- **Ticker summary** (`fetch_ticker_summary`): the company description taken from the issuer metadata. When the metadata has no description, it builds a one-line "name | Sector | Industry | Country" headline.
- **Commentary parsing** (`_parse_rag_blocks`): reads the reply of the external commentary service. The reply is supposed to hold two labelled lines, `RAG_MSG:` and `RAG_SUMMARY:`. When a label is missing, the parser falls back to "first line / remaining lines", cut to 240 and 700 characters.
- **Commentary cache and merge** (`rag_commentary_from_vectorstore` and the end of `/analyze`): a dictionary from `ticker:score:rsi:pe:change` to `(timestamp, msg, summary)`. An entry is served for ten minutes. The commentary is then appended to the page's message and summary.

Modules, one per file:

| file | module | what it holds |
|---|---|---|
| `Wrappers.dfy` | `Wrappers` | `Option` (Python's `None` or a value) |
| `PyStr.dfy` | `PyStr` | Python's `isspace`, `strip`, `splitlines`, `"\n".join`, `s[:n]`, `str(int)`; splitting at a character |
| `Indicators.dfy` | `Indicators` | `compute_rsi` in exact real arithmetic, with its properties |
| `Scoring.dfy` | `Scoring` | `score_and_message` as a method accumulating the score, plus one specification function per rule |
| `TickerSummary.dfy` | `TickerSummary` | `fetch_ticker_summary` over a `map<string, string>` with Python truthiness |
| `RagParse.dfy` | `RagParse` | `_parse_rag_blocks` as a loop method checked against a specification function |
| `RagCache.dfy` | `RagCache` | the cache key, and the class `CommentaryCache` whose `entries` map is `_RAG_CACHE` |
| `Analyze.dfy` | `Analyze` | the merge of the commentary into the page's `msg` and `summary` |

## Behaviour worth knowing

- With a zero average loss, `compute_rsi` returns `None`, where the textbook RSI convention gives 100. Line 90 replaces a zero loss by NaN, so the RSI is NaN and line 94 returns `None`. `Indicators.ComputeRsi` states exactly when `None` comes back, and `Indicators.RisingWindowHasNoRsi` states that a non-decreasing window yields `None`.
- The P/E rule (main.py:111-119) gives +10 below 15, +5 from 15 to below 30, nothing from 30 to 40, −5 above 40 up to 60, and −10 above 60. So the band from 30 to 40 costs nothing, and the −5 band is 40..60.
- For RSI 62, P/E 28.5 and change +1.35 %, the code gives 50 + int(10 − 6) + 5 + 0 = 59 (`Scoring.Example62`).
- The clamp to [0, 100] never changes the score. The unclamped sum always lies in [15, 83] (`Scoring.ScoreIsUnclampedSum`).

## Model

| member | source | states |
|---|---|---|
| `Indicators.Gain` | main.py:83-84 | the gain of a price difference is never negative, is at least the difference, and is either 0 or the difference itself |
| `Indicators.Loss` | main.py:83-85 | the loss of a price difference is never negative, is at least minus the difference, and is either 0 or minus the difference |
| `Indicators.SumGains` | main.py:87 | the summed gains of a window are never negative |
| `Indicators.SumLosses` | main.py:88 | the summed losses of a window are never negative |
| `Indicators.Window` | main.py:87-93 | the window read at the last row is the last `period + 1` closes, in order |
| `Indicators.ComputeRsi` | main.py:79-96 | the result is `None` exactly when there are fewer than `period + 1` closes, the period is 0, or the window has no loss; any RSI produced lies in [0, 100) |
| `Indicators.NetMove` | main.py:83-85 | over a window, the sum of gains minus the sum of losses equals last close minus first close |
| `Indicators.GainsPlusLosses` | main.py:83-85 | gains plus losses equal the total absolute movement of the window |
| `Indicators.RsiIsGainShare` | main.py:87-91 | whenever an RSI is produced, the average loss is positive and RSI = 100·G / (G + L) over the last `period` differences |
| `Indicators.RsiZeroIffNoGain` | main.py:87-91 | a produced RSI is 0 exactly when the window has no gain |
| `Indicators.RisingWindowHasNoRsi` | main.py:90-95 | a non-decreasing window has zero average loss, so the result is `None` (not 100) |
| `Indicators.FallingWindowHasRsiZero` | main.py:87-91 | a non-increasing window that falls somewhere gives RSI exactly 0 |
| `Indicators.OnlyWindowMatters` | main.py:87-93 | closes before the last `period + 1` do not affect the result (rolling mean read at the last row) |
| `Indicators.RsiShiftInvariant` | main.py:83-91 | adding a constant to every close leaves the result unchanged, `None` included |
| `Scoring.Score` | main.py:101-127 | the score computed rule by rule lies in [0, 100] |
| `Scoring.TierOf` | main.py:129-140 | the favourable tier is exactly a score of at least 75, the selective tier exactly 55..74, the defensive tier exactly below 55 |
| `Scoring.ScoreAndMessage` | main.py:99-142 | the returned score is `Score` of the inputs and lies in [0, 100]; colour is green iff score ≥ 75, yellow iff 55..74, red iff < 55; colour, status and message are those of `TierOf(score)` |
| `Scoring.Trunc` | main.py:109 | Python `int()` on a float truncates toward zero |
| `Scoring.RsiPoints` | main.py:103-109 | the RSI rule contributes between −20 and +20 |
| `Scoring.PePoints` | main.py:111-119 | the P/E rule contributes between −10 and +10 |
| `Scoring.ChangePoints` | main.py:121-125 | the change rule contributes between −5 and +3 |
| `Scoring.Clamp` | main.py:127 | the result lies in [0, 100] and equals its input inside that range |
| `Scoring.NeutralBandReward` | main.py:108-109 | within [30, 70] the reward `int(10 − abs(rsi − 50) / 2)` lies in [0, 10], is 10 iff RSI = 50, and is 0 at 30 and at 70 |
| `Scoring.NeutralBandMonotone` | main.py:108-109 | within the band, an RSI at least as close to 50 earns at least as much |
| `Scoring.RsiBandEdges` | main.py:104-109 | RSI below 30 earns +20; above 70 earns −20; 30 and 70 are in the neutral band and earn 0 |
| `Scoring.PeAndChangeAntitone` | main.py:111-125 | a larger P/E never earns more, and a larger change never earns more |
| `Scoring.ScoreIsUnclampedSum` | main.py:101-127 | the score lies in [15, 83] and equals 50 plus the three contributions; with RSI, P/E or change absent, the score is 50 plus the other two contributions |
| `Scoring.AllAbsentIsDefensive` | main.py:101-140 | with RSI, P/E and change all absent the score is 50, in the red/caution tier |
| `Scoring.Example62` | main.py:101-136 | RSI 62, P/E 28.5, change 1.35 gives score 59, the yellow/neutral tier |
| `Scoring.TiersReachable` | main.py:129-140 | each of the three tiers is produced by some input |
| `TickerSummary.FetchTickerSummary` | main.py:145-154 | the result is never empty; a non-empty long description is returned verbatim; otherwise a non-empty short description is returned verbatim |
| `TickerSummary.EmptyIsMissing` | main.py:146-153 | a key holding "" gives the same summary as a missing key |
| `TickerSummary.HeadlineFallback` | main.py:150-154 | without a description, the result is the headline: long name, else short name, else "", then sector, industry and country, each "N/A" when missing |
| `TickerSummary.EmptyInfo` | main.py:150-154 | an empty metadata map gives the headline with an empty name and "N/A" three times |
| `PyStr.Strip` | main.py:215 | `strip()` returns the part of the input between its leading and its trailing whitespace, both of which are all whitespace; the result has no whitespace at either end, and is "" exactly for all-whitespace input |
| `PyStr.StripIdempotent` | main.py:286 | stripping twice is stripping once |
| `PyStr.SplitLines` | main.py:214 | `splitlines()` gives no lines for "" and at least one line otherwise; no line holds a line break; the first line is the text up to its first line break |
| `PyStr.SplitLinesCons` | main.py:214 | a line followed by any terminator `splitlines` recognises ("\n", "\r", "\r\n" and the other line breaks) contributes exactly that line, and splitting goes on after the terminator |
| `PyStr.JoinLines` | main.py:225 | joining no lines gives "", and joining one line gives that line |
| `PyStr.SplitJoin` | main.py:221-225 | splitting the "\n"-join of break-free lines whose last one is non-empty gives those lines back |
| `PyStr.Take` | main.py:223 | `s[:n]` is a prefix of `s` of length `min(n, len(s))` |
| `PyStr.IntToString` | main.py:240 | `str(int)` is non-empty and made of digits and a minus sign only |
| `PyStr.IntToStringInjective` | main.py:240 | distinct integers print differently |
| `RagParse.LabelValue` | main.py:216-219 | the value after a label, `s.replace(label, "", 1).strip()`, is itself stripped and no longer than the stripped line minus the label |
| `RagParse.LastTaggedStripped` | main.py:214-219 | the value the loop keeps for a label is always stripped |
| `RagParse.ParseRagBlocks` | main.py:204-228 | the loop over the lines followed by the fallbacks returns exactly `ParsedBlocks(text)` |
| `RagParse.ParsedBlocks` | main.py:210-228 | empty text gives ("", ""); a labelled value that is present is returned; an absent message is the first `min(240, n)` characters of the first line of the stripped text (n its length); an absent summary is the first `min(700, n)` characters of the remaining lines, joined and stripped |
| `RagParse.FirstLineFallback` | main.py:222-223 | the fallback message is the prefix of the first line of the stripped text of length `min(240, len(line))` |
| `RagParse.RestFallback` | main.py:224-226 | the fallback summary is the prefix of the stripped remaining lines of length `min(700, len(rest))`, so "" when there are none |
| `RagParse.LabelsExclusive` | main.py:216-219 | no line starts with both labels, so the `elif` never hides a summary line |
| `RagParse.LastTaggedSnoc` | main.py:214-219 | one more line overrides the value of its label and leaves the other label's value alone |
| `RagParse.LastTaggedIsLastMatch` | main.py:214-219 | the last line carrying a label decides its value, whatever earlier lines said |
| `RagParse.LastTaggedNoMatch` | main.py:210-219 | without a line carrying the label, its value stays "" |
| `RagParse.LabelledRoundTrip` | main.py:214-219 | a reply `RAG_MSG: m` / `RAG_SUMMARY: s` (m, s non-empty, one-line, stripped) parses back to exactly (m, s) |
| `RagParse.UnlabelledFallback` | main.py:221-226 | for a stripped reply (as main.py:286 supplies) without labels, whatever terminator ends the first line ("\n", "\r\n", "\r", …), the message is the first line cut to 240 and the summary is the remaining lines joined, stripped and cut to 700 |
| `RagParse.UnlabelledOneLine` | main.py:221-226 | a stripped one-line reply (as main.py:286 supplies) without labels gives the line cut to 240 as message and "" as summary |
| `RagCache.CacheKey` | main.py:240 | when the RSI, P/E and change hold no colon, splitting the key at its colons gives the pieces of the ticker followed by the score, the RSI, the P/E and the change |
| `RagCache.CacheKeyFields` | main.py:240 | a key whose fields, the ticker included, hold no colon splits back at its colons into ticker, score, RSI, P/E and change |
| `RagCache.CacheKeyInjective` | main.py:240 | two requests whose RSI, P/E and change hold no colon share an entry only if ticker, score, RSI, P/E and change are all equal, whatever the tickers hold |
| `RagCache.StrippedReplyParses` | main.py:286-287 | a stripped reply is never whitespace-only, so the parser's precondition holds for every reply |
| `RagCache.CommentaryCache.constructor` | main.py:200 | the cache starts empty |
| `RagCache.CommentaryCache.Lookup` | main.py:242-245 | a hit exactly when the key is present and younger than 600 s; a hit returns the stored pair |
| `RagCache.CommentaryCache.RagCommentary` | main.py:236-290 | no vector-store id (unset or "") gives ("", "") with the cache untouched; a fresh entry is returned with the cache untouched; otherwise the parsed stripped reply is returned and stored as `(now, msg, summary)` under its key, every other entry unchanged |
| `Analyze.MergeCommentary` | main.py:311-317 | an empty commentary half leaves its text unchanged; a non-empty half gives a stripped text, as stated case by case for `MergeMessage` and `MergeSummary` |
| `Analyze.MergeMessage` | main.py:311-313 | a non-empty commentary message after a non-blank advisory gives the stripped advisory, one blank and the commentary without its trailing whitespace (the advisory alone when the commentary is all whitespace); after a blank advisory, the stripped commentary |
| `Analyze.MergeSummary` | main.py:315-317 | a non-empty commentary summary after a non-blank summary gives the stripped summary, "\n\n[PDF 기반 전략 메모]\n" and the commentary without its trailing whitespace; after a blank summary the heading's leading line breaks are dropped; an all-whitespace commentary leaves only the title after the text |
| `Analyze.MergeAppends` | main.py:311-317 | with trimmed texts, the message becomes advisory + " " + commentary, and the summary becomes summary + memo heading + commentary summary |

## Left out

- HTTP routes, templates, the error page of `/analyze` and `/debug/yahoo` (main.py:22-49, 296-343): request and rendering plumbing.
- The market-data fetch and the percent-change computation in `analyze_ticker` (main.py:157-193): network calls on a third-party object. Its results reach the model as parameters.
- `safe_num` and `format_mcap` (main.py:55-76): IEEE rounding of `safe_num` and the `%.2f` formatting of `format_mcap`. The cache key therefore takes the displayed RSI, P/E and change as the strings the f-string at main.py:240 renders from `safe_num`'s results (a rounded float through `str()`, or "N/A").
- The prompt text and the call to the commentary service (main.py:247-284): the service is the function parameter `ask` of `RagCommentary`. It maps the vector-store id, the ticker and the displayed result to the reply text.
- RagCache.CommentaryCache.RagCommentary: within one call, the reply is a fixed function `ask` of the vector-store id, the ticker and the shown result. A service whose replies vary from call to call is modelled by the caller passing a different `ask` to each call. A hit returns the stored pair whatever the service would answer.
- RagCache.CommentaryCache.RagCommentary: the service call (main.py:267) can raise, and the model's `ask` never fails. When it raises, nothing is written to the cache and the exception reaches the `except` branch of `/analyze` (main.py:324-343). That branch shows the error page with score 0 instead of the analysis with an empty commentary, so a failing service does not degrade to empty commentary. The model does not capture this path.
- `time.time()` (main.py:241): the current time is the parameter `now`. Thread safety of the module-level dictionary is not modelled.
- Floating point: closes, RSI, P/E and change are exact `real`s. NaN is not modelled. The closes are NaN-free after `dropna` (main.py:164). A NaN P/E is passed as `None`, because line 111 treats both alike. Rounding of the RSI quotient is not modelled.
- Indicators.ComputeRsi: a period of 0 gives `None`, reading pandas' empty rolling window as NaN. The only caller passes 14.
- RagParse.ParseRagBlocks: whitespace-only text raises `IndexError` at main.py:223. The model excludes it by a precondition, because the only caller strips the reply first (main.py:286). `RagCache.StrippedReplyParses` shows that this always holds.
- Metadata values are strings. `fetch_ticker_summary` reads only string-valued keys, and a non-string value there is not modelled.
- Python strings are sequences of Unicode scalar values. Lone surrogates, which Python allows, are not modelled.
