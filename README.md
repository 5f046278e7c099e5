# Good Energy core, modelled in Dafny

Good Energy is a Django web application with a JavaScript front end. It runs behaviour-change
campaigns for organisations:
- **Indicators.** Each day, members answer a campaign's *indicators*. These are Likert-scale
  questions or numeric ones with a range and a target.
- **Averages.** A background worker keeps per-indicator averages, computed over everyone and over
  each *group*. It stores them as answers of system users. It also stores a per-user daily
  *overall* score, the mean of that day's answers expressed as percentages.
- **Profiles.** Each member's profile tracks participation and inspiration points, plus a
  distance from the average, from which a rank and a school grade are derived.
- **Actions.** Members *pledge* to perform actions and later complete them. Action views show
  pledge counts and barriers. They are cached per user in memcache, and the cache entries are
  invalidated when pledges change.
- **Campaigns.** A campaign has members who join on a date. It reports statistics and serves a
  JSON list of its users.

This project models that core as Dafny modules, one per source file, plus a few shared helper
modules:

| module | models |
|---|---|
| `Wrappers` | `Option`, `Result` and `Outcome`; errors named after the Python and JavaScript exceptions the source raises |
| `Text` | decimal rendering of numbers (`str(n)`, `'%d'`), Python slicing, `str.replace`, joining |
| `Sorting` | Python's stable `list.sort(key=...)` |
| `Memcache` | the Django cache as a class holding one mutable map, and the `'prefix%d_%d'` keys |
| `Indicators` | `indicator/models.py`: percentages, comparison with the average, graph ticks, indicator lookup |
| `Window` | `Indicator._aggregate_averages`: the 30-answer moving average |
| `Answers` | `AnswerManager`, `Answer.update_averages` and `Indicator.average`, `calculate_day_average`, `next`, `answers_with_average`. The answer table is a class whose methods update it in place |
| `Profiles` | `profile/models.py`: points, ranking and grade, avatar file names, `_map_by_date` |
| `CoreUtil` | `core/util.py`: the thread-local current user, organisation and campaign; `slugify`, `redirect`, `json_encoder_default`, `unique_field`, `chop_campaign` |
| `UtilJs` | `media/js/util.js`: `Array.prototype.remove`, `pluralize`, `cleverSplit` |
| `Campaigns` | `campaign/models.py`: `default`, membership, start and end dates, active users, `users_json`, `stats` |
| `Actions` | `action/models.py`: pledge counts, `pledge` (get-or-create plus cache invalidation), `popular`, comment-count refresh |
| `ActionViews` | `action/view_objects.py`: `ActionView`, `BarrierView`, the per-user popular-actions cache and its index |

Conventions:
- Database tables are sequences of rows. Django's `get()` is modelled as a `Result`: it fails with
  `DoesNotExist` when no row matches and with `MultipleObjectsReturned` when several do.
- Python truthiness is written out explicitly (`None`, `0`, `""`, `[]` are false).
- Python 2 integer division is floor division.
- Answer values are exact reals.

## Model

| member | source | states |
|---|---|---|
| `Indicators.Ceil` | indicator/models.py:635 | `math.ceil`: the least integer at or above its argument |
| `Indicators.Trunc` | indicator/models.py:812 | `int(value)`: truncation toward zero, for negative as well as positive values |
| `Indicators.FloorDiv` | indicator/models.py:711 | Python 2 `/` on integers: floor division, bounded on both sides for either divisor sign |
| `Indicators.LikertPercentage` | indicator/models.py:630-635 | a missing or zero answer scores 0; it fails only when a non-zero answer meets a one-option scale (division by zero); the result is always a whole number (ceiling) |
| `Indicators.LikertScale` | indicator/models.py:630-635 | on a scale of n >= 2 options, answers 1..n map monotonically into 0..100, with 1 mapping to 0 and n to 100 |
| `Indicators.NumberPercentage` | indicator/models.py:703-711 | never above 100; fails exactly when the target, or else the range end, is missing or zero, or the answer is missing; a zero top value is a ZeroDivisionError |
| `Indicators.AsPercentage` | indicator/models.py:904-906 | dispatches on the indicator's kind to the Likert or the number rule |
| `Indicators.NumberCap` | indicator/models.py:711 | a scaled answer strictly above 100 gives exactly 100 |
| `Indicators.IntPercentage` | indicator/models.py:629-632 | a percentage is a Python int only as the Likert 0 of a falsy answer (exactly then, for Likert) or as the Number cap of 100; such a percentage succeeds and is 0 or 100 |
| `Indicators.NumberPercentageBounds` | indicator/models.py:703-711 | for a positive top value and a non-negative answer: succeeds, is non-negative and is at most answer*100/top (integer division only loses) |
| `Indicators.NumberPercentageExact` | indicator/models.py:711 | when the top value divides 100, the result is exactly min(answer*100/top, 100) |
| `Indicators.TargetAbove100ScoresZero` | indicator/models.py:711 | a target above 100 makes `100 / target` zero, so every answer scores 0% |
| `Indicators.TargetThirty` | indicator/models.py:711 | with target 30 the factor is 3: 15 scores 45%, 30 scores 90%, 34 is capped at 100% |
| `Indicators.Tolerate` | indicator/models.py:303-306 | the toleranced value is 0 exactly when the difference lies within ±tolerance, and otherwise is the difference itself, with the same sign |
| `Indicators.ZeroTolerance` | indicator/models.py:283-289 | tolerance 0 leaves the difference unchanged |
| `Indicators.RatingPartition` | indicator/models.py:287-288 | above, on or below average each hold exactly when the difference is above, within or below the tolerance band |
| `Indicators.Matching` | indicator/models.py:291-295 | the rows that match user, indicator and date, and are not skips when that is asked |
| `Indicators.GetAnswer` | indicator/models.py:291-300 | Ok exactly when one row matches, and then gives a matching row; DoesNotExist exactly when no row matches; otherwise MultipleObjectsReturned |
| `Indicators.ComparedToAverage` | indicator/models.py:283-308 | the first failure among the user's answer, its percentage, the average user's answer and its percentage is the result; it succeeds exactly when all four do, and the raw difference is the user's percentage minus the average user's, paired with its toleranced value |
| `Indicators.Of` | indicator/models.py:858 | the non-skipped rows of one user and indicator |
| `Indicators.ByIndicator` | indicator/models.py:851-860 | the same rows, ordered by date: a permutation of the filtered rows |
| `Indicators.Regular` | indicator/models.py:69-73 | the non-synthetic indicators of the campaign |
| `Indicators.RegularIndicators` | indicator/models.py:60-79 | those indicators sorted by position, as a permutation |
| `Indicators.Ids` | indicator/models.py:93 | the ids in the same order |
| `Indicators.FindById` | indicator/models.py:84-87 | the first indicator with that id; DoesNotExist exactly when none has it |
| `Indicators.GetCached` | indicator/models.py:81-87 | a regular indicator of the campaign with that id, or DoesNotExist exactly when there is none |
| `Indicators.PyRange` | indicator/models.py:753 | `range(start, end, step)`: starts at start, stays below end, steps by step, reaches past end - step |
| `Indicators.Step` | indicator/models.py:735-749 | the tick step is one of 1, 2, 5, 10, 20, 50, 100: 1 up to 10 ticks, 100 from 1000 ticks |
| `Indicators.MaxNum` | indicator/models.py:731-732 | the aggregate Max: the largest present value, None only when no answer has a value |
| `Indicators.GraphVals` | indicator/models.py:721-757 | fails exactly when the range start is missing, or when a non-percentage indicator has neither a maximum answer nor a range end; the last tick is the computed end |
| `Indicators.GraphValsShape` | indicator/models.py:721-757 | ticks strictly increase, start at the range start and never go below it |
| `Indicators.TopTickAboveAnswers` | indicator/models.py:731-755 | every answer lies strictly below the top tick of a non-percentage graph |
| `Window.TruthyValues` | indicator/models.py:513-517 | the values the window sees: non-zero ones only |
| `Window.LastN` | indicator/models.py:517-519 | the deque bounded by the window size keeps the last n values |
| `Window.LastNAppend` | indicator/models.py:517-519 | appending then dropping the oldest value when the window overflows is the same as keeping the last n of the longer list |
| `Window.AggregateAverages` | indicator/models.py:499-523 | the loop computes the moving averages; a zero window size with any truthy value divides by zero |
| `Window.WindowStep` | indicator/models.py:513-521 | one loop step: a falsy answer changes nothing; a truthy one updates its date to the mean of the new window |
| `Window.MovingAverageKeys` | indicator/models.py:513-521 | the result has an entry exactly for the dates of truthy answers |
| `Window.MovingAverageEntry` | indicator/models.py:521 | for the last truthy answer on a date, the entry is the mean of the window ending at it |
| `Window.MovingAverageBounds` | indicator/models.py:521 | every moving average lies between the smallest and largest answer value |
| `Window.TruthyValuesBounds` | indicator/models.py:514-517 | the window values keep the bounds of the answers |
| `Window.ThreeDays` | indicator/models.py:499-523 | answers 10, 20, 30 on three days give averages 10, 15, 20 with window 30, and 25 on the last day with window 2 |
| `Answers.FindKey` | indicator/models.py:795-800 | the index of a row with that user, indicator and date, or None when no row has that key |
| `Answers.Upsert` | indicator/models.py:162-168 | `get_or_create` plus save: at most one new row; rows with other keys are unchanged |
| `Answers.UpsertOutcome` | indicator/models.py:162-168 | keeps the table well formed (one row per key, fresh ids), and afterwards the key's row holds the new value and skip flag |
| `Answers.UpsertSameValue` | indicator/models.py:343-350 | writing a row's own value back changes nothing |
| `Answers.GetUnique` | indicator/models.py:795-800 | in a well-formed table, `get` by a row's key returns that row |
| `Answers.Sample` | indicator/models.py:324-339 | the values averaged: non-zero only, at most one per row |
| `Answers.AverageRows` | indicator/models.py:341-350 | at most one new row, for the average user; all other rows unchanged |
| `Answers.AverageOutcome` | indicator/models.py:310-350 | an empty sample writes nothing; otherwise the average user's row for the day holds the mean of the sample |
| `Answers.SampleIgnoresSystemRows` | indicator/models.py:328-335 | rows of system users never enter the sample |
| `Answers.AverageIdempotent` | indicator/models.py:310-350 | averaging twice gives the same table as averaging once |
| `Answers.DayPercentages` | indicator/models.py:141-154 | the day's answers, as percentages, over the campaign's regular indicators |
| `Answers.DayScore` | indicator/models.py:137-159 | 0 when there are no percentages; the exact mean when some percentage is a float; when all are ints, a whole number within 1 below the mean (Python 2's `/` floors); in 0..100 when every percentage is |
| `Answers.IntPercentagesWhole` | indicator/models.py:137-154 | when every percentage is an int, their sum is a whole number |
| `Answers.IntScore` | indicator/models.py:156-157 | over a whole-number sum, the day score is the integer floor division of the sum by the count |
| `Answers.IntStep` | indicator/models.py:148-154 | one more row keeps the sum an int exactly when it does not count or its percentage is an int |
| `Answers.DayAverageRows` | indicator/models.py:131-168 | a campaign without an overall indicator gives DoesNotExist; at most one new row; other keys unchanged |
| `Answers.DayAverageOutcome` | indicator/models.py:156-168 | a zero score writes nothing (`if result != 0`); a non-zero score is stored as the user's overall answer for the day |
| `Answers.DayScoreInRange` | indicator/models.py:148-159 | percentages within 0..100 give a day score within 0..100 |
| `Answers.PercentagesInRange` | indicator/models.py:148-154 | every collected percentage keeps the 0..100 bound of its answer |
| `Answers.DayAverageIdempotent` | indicator/models.py:131-168 | recomputing the day average after storing it changes nothing |
| `Answers.DayPercentagesIgnoreOther` | indicator/models.py:141-146 | rows of indicators outside the campaign's regular list do not affect the day score |
| `Answers.PercentagesErrorPersists` | indicator/models.py:148-154 | the first failing percentage aborts the whole computation |
| `Answers.ColumnOf` | indicator/models.py:587-600 | one graph column: the points whose cell has a value |
| `Answers.ColumnMembers` | indicator/models.py:587-600 | a (date, value) pair is in a column exactly when some point of that date has that cell value |
| `Answers.ColumnIncreasing` | indicator/models.py:585-600 | points in strictly increasing date order give columns in increasing date order |
| `Answers.ColumnHolds` | indicator/models.py:587-600 | a column holds exactly the present values of its map |
| `Answers.BuildPoints` | indicator/models.py:571-585 | KeyError exactly when some date of the "to" values has no average; otherwise one point per date, in date order |
| `Answers.Chart` | indicator/models.py:571-600 | the four series are date-increasing and hold exactly the present values of their maps; KeyError as above |
| `Answers.SplitColumns` | indicator/models.py:587-600 | the four lists are the four columns of the points |
| `Answers.KeyErrorWhen` | indicator/models.py:559-581 | the fill-in never causes or cures a KeyError: it happens exactly when a "to" date lacks an average |
| `Answers.FilledKeys` | indicator/models.py:559-569 | after the fill-in every "from" date and every average date is a "to" date |
| `Answers.SeriesHolds` | indicator/models.py:587-600 | the points determine the four series exactly |
| `Answers.ZeroAnswerHasNoAverage` | indicator/models.py:514 | a lone 0 answer has a value but no moving average (its date is then missing from the averages) |
| `Answers.RemoveFirst` | indicator/models.py:103 | `list.remove`: ValueError exactly when the id is absent; otherwise one element shorter |
| `Answers.DayRows` | indicator/models.py:96-99 | exactly the rows for these indicators, this user and this day |
| `Answers.Without` | indicator/models.py:101-103 | the ids not in the set, in order |
| `Answers.RemoveFirstWithout` | indicator/models.py:101-103 | removing one more distinct id is filtering it out |
| `Answers.RemoveEachWithout` | indicator/models.py:101-103 | the removal loop succeeds and leaves the ids that were not answered |
| `Answers.RemoveAnswered` | indicator/models.py:101-103 | the loop computes `RemoveEach`: each answered id removed in turn, stopping with the first removal's ValueError |
| `Answers.DayRowsDistinct` | indicator/models.py:96-99 | in a well-formed table, the day's rows have distinct indicators, so no removal fails |
| `Answers.DoneIffAnswered` | indicator/models.py:96-103 | an indicator is removed exactly when the user answered it that day |
| `Answers.RemoveErrorPersists` | indicator/models.py:101-103 | a failed removal aborts the loop |
| `Answers.FirstUnanswered` | indicator/models.py:93-108 | nothing is left exactly when all are answered; otherwise the first left is the first unanswered by position |
| `Answers.NextFirstUnanswered` | indicator/models.py:89-108 | `next` is DoesNotExist exactly when every regular indicator is answered, else the first unanswered one |
| `Answers.DayStep` | indicator/models.py:924 | a day-average failure leaves the table unchanged |
| `Answers.GroupAverages` | indicator/models.py:920-922 | no groups, no change |
| `Answers.Recomputed` | indicator/models.py:908-931 | a campaign without an overall indicator fails |
| `Answers.UpsertOnlyDayValue` | indicator/models.py:162-168 | an upsert changes only values on its own date |
| `Answers.AverageStepOutcome` | indicator/models.py:310-350 | an indicator average keeps the table well formed and touches only its date |
| `Answers.DayStepOutcome` | indicator/models.py:131-168 | a day average keeps the table well formed and touches only its date |
| `Answers.GroupAveragesOutcome` | indicator/models.py:920-922 | the group loop keeps the table well formed and touches only its date |
| `Answers.RecomputedOutcome` | indicator/models.py:908-931 | the whole update keeps the table well formed and touches only the answer's date |
| `Answers.GroupAveragesKeep` | indicator/models.py:920-922 | rows of other indicators and users survive the group loop |
| `Answers.RecomputedKeeps` | indicator/models.py:908-931 | rows that no average owns survive the whole update |
| `Answers.GroupFailPersists` | indicator/models.py:920-922 | a failing group aborts the rest of the loop |
| `Answers.NewDistance` | profile/models.py:287-288 | a campaign without an overall indicator gives DoesNotExist; success needs the user's and the average user's overall answers |
| `Answers.Stored` | indicator/models.py:809-812 | a skip stores None; otherwise the truncated integer value |
| `Answers.GivenRow` | indicator/models.py:793-800 | a given answer is the row `get` would have found |
| `Answers.SavedAnswer` | indicator/models.py:791-815 | the saved row has the key, the stored value and skip flag, keeps the existing id or takes the next one, and is in the new table |
| `Answers.AnswerTable.Average` | indicator/models.py:310-350 | the table becomes the averaged table and stays well formed |
| `Answers.AnswerTable.Tally` | indicator/models.py:333-339 | the loop returns the sum and count of the sample |
| `Answers.AnswerTable.CalculateDayAverage` | indicator/models.py:131-168 | fails exactly when the specification fails, leaving the table unchanged; otherwise the table is the specified one, storing the floor-divided mean when every percentage is an int |
| `Answers.AnswerTable.DayTotals` | indicator/models.py:148-154 | the loop returns the sum and count of the day's percentages and whether every one is an int, or their error |
| `Answers.AnswerTable.Next` | indicator/models.py:89-108 | the removal loop's result is `NextOf`, which `NextFirstUnanswered` shows is the first unanswered regular indicator, or DoesNotExist when all are answered |
| `Answers.AnswerTable.FillMissing` | indicator/models.py:559-569 | dates missing from the "to" series take the user's own value, and one message is sent for each such date, no other |
| `Answers.AnswerTable.AnswersWithAverage` | indicator/models.py:525-600 | KeyError exactly when a "to" date has no average; otherwise four date-ordered series holding exactly the (filled-in) values and averages; one message per missing date |
| `Answers.AnswerTable.UpdateAverages` | indicator/models.py:908-931 | a skip changes nothing; otherwise the table is the recomputed one, only values of that date change, and on success the profile's distance is the new distance |
| `Answers.AnswerTable.AverageGroups` | indicator/models.py:920-922 | the loop over groups computes the group averages and keeps the table well formed |
| `Answers.AnswerTable.Save` | indicator/models.py:788-818 | the answer is saved, and a participation point is added exactly when it is new |
| `Answers.AnswerTable.CreateUpdate` | indicator/models.py:788-834 | a blank non-skip answer raises TypeError and changes nothing; otherwise saves and awards the point as above; a skip never updates averages; a last indicator updates averages at once, any other sends one message with the answer's id |
| `Profiles.Profile.constructor` | profile/models.py:116-120 | defaults: distance 0, one participation, inspiration and credit point |
| `Profiles.Profile.Ranking` | profile/models.py:183-192 | between 1 and members+1; a member ranks within the member count; rank 1 exactly when no member has a strictly higher distance |
| `Profiles.Profile.AddParticipationPoints` | profile/models.py:194-197 | adds the points, saves once, changes nothing else |
| `Profiles.Profile.GiveInspirationPoint` | profile/models.py:199-205 | moves one point from the giver's credit to the receiver, also when they are the same profile |
| `Profiles.Profile.RecalcPoints` | profile/models.py:271-281 | participation becomes answers + status updates + comments |
| `Profiles.Profile.UpdateComparedToAverage` | profile/models.py:283-292 | stores the new distance and saves only when it changed |
| `Profiles.CountAbove` | profile/models.py:187-189 | the count never exceeds the members |
| `Profiles.RankMonotone` | profile/models.py:183-192 | a higher distance never has more members above it, so never ranks lower |
| `Profiles.MemberHasRoom` | profile/models.py:183-192 | a member is not counted above itself, so fewer than all members are above it |
| `Profiles.NoneAbove` | profile/models.py:187-192 | the count above is zero exactly when every score is at most this one |
| `Profiles.Rank` | profile/models.py:173-181 | a grade from GRADES, or ZeroDivisionError exactly for an empty campaign |
| `Profiles.GradeIndex` | profile/models.py:178-181 | the grade index is (6 * exact) div total, capped at 5 |
| `Profiles.FloorOfScaled` | profile/models.py:178 | truncating exact/total*6 equals integer division |
| `Profiles.RankWithinCampaign` | profile/models.py:173-181 | a better ranking never gets a worse grade |
| `Profiles.BestOfThreeGetsBPlus` | profile/models.py:173-181 | first of three members gets "B+", not "A+" |
| `Profiles.AvatarExt` | profile/models.py:236-248 | a given extension wins, else the last three characters of the stored avatar's name, else those of the file on disk; IOError exactly when there is none of the three |
| `Profiles.PicFilenames` | profile/models.py:250-264 | the three file names are `dark_<id>.<ext>`, `full_<id>.<ext>`, `<id>.<ext>`, pairwise distinct |
| `Profiles.MapByDate` | profile/models.py:359-364 | the loop builds the date map |
| `Profiles.DateMapLastWins` | profile/models.py:362-363 | the last answer of a date gives its value |
| `Profiles.DateMapKeys` | profile/models.py:359-364 | the keys are exactly the answer dates |
| `Profiles.DateMapUniform` | profile/models.py:359-364 | answers agreeing on a date give that value |
| `CoreUtil.ThreadSlots.constructor` | core/util.py:34 | a fresh thread has no user, organisation or campaign |
| `CoreUtil.ThreadSlots.SetCurrentUser` | core/util.py:43-45 | sets the user only |
| `CoreUtil.ThreadSlots.ClearCurrentUser` | core/util.py:36-41 | removes the user only, also when none was set |
| `CoreUtil.ThreadSlots.GetCurrentUser` | core/util.py:55-60 | the recorded user, None when unset |
| `CoreUtil.ThreadSlots.SetCurrentOrganization` | core/util.py:47-49 | sets the organisation only |
| `CoreUtil.ThreadSlots.SetCurrentCampaign` | core/util.py:51-53 | sets the campaign only |
| `CoreUtil.Slugify` | core/util.py:76-79 | a prefix of the long slug of exactly min(its length, max_len) characters, unchanged exactly when it fits |
| `CoreUtil.Redirect` | core/util.py:81-87 | the response changes exactly for an Ajax 302, whose status becomes 278; location and content are kept |
| `CoreUtil.JsonEncoderDefault` | core/util.py:89-99 | as written: a date or a datetime gives its day's midnight in milliseconds since the epoch, a multiple of 86400000; anything else gives None |
| `CoreUtil.MidnightMillis` | core/util.py:95-99 | a day's midnight is its number of days since 1 January 1970 times 86400000 |
| `CoreUtil.JsonEncoderIntended` | core/util.py:89-99 | as the docstring describes: a datetime keeps its time of day in whole seconds; a date encodes as in the as-written function; anything else gives None |
| `CoreUtil.EpochIsZero` | core/util.py:89-99 | 1970-01-01 is 0; as written, 00:00:01.999999 on that day is also 0, where the intended encoding gives 1000 |
| `CoreUtil.DateIsMidnight` | core/util.py:95-96 | a date encodes as the intended encoding of its datetime at midnight, days since the epoch times 86400000 |
| `CoreUtil.DateTimeIsItsDate` | core/util.py:95-96 | as written, every datetime encodes exactly as its date: the time of day is lost |
| `CoreUtil.AfternoonLost` | core/util.py:95-99 | 2015-03-01 13:45 encodes as 1425168000000 as written and as 1425217500000 when intended |
| `CoreUtil.TimeOfDay` | core/util.py:98-99 | in the intended encoding a datetime adds its seconds of the day, in milliseconds |
| `CoreUtil.NextDayAddsOneDay` | core/util.py:89-99 | consecutive days are 86400000 ms apart, across month and year ends |
| `CoreUtil.Count` | core/util.py:128 | zero exactly when the value is unused |
| `CoreUtil.Get` | core/util.py:127-132 | the value itself when it occurs exactly once; DoesNotExist exactly when the value is unused; otherwise MultipleObjectsReturned |
| `CoreUtil.StarterAt` | core/util.py:139-140 | the shortened starter is a prefix of the starter |
| `CoreUtil.CandidateFits` | core/util.py:137-142 | a candidate fits the field's maximum length when its number does |
| `CoreUtil.CandidatesDistinct` | core/util.py:137-142 | numbered candidates are pairwise distinct, so the loop terminates |
| `CoreUtil.UniqueField` | core/util.py:117-142 | returns an unused value, the first unused candidate in the sequence |
| `CoreUtil.ChopCampaign` | core/util.py:144-152 | removes `campaign_slug` and keeps every other argument |
| `UtilJs.Pluralize` | media/js/util.js:130-132 | "" exactly for the number 1, otherwise "s" |
| `UtilJs.RestStart` | media/js/util.js:21 | the kept tail starts within the array |
| `UtilJs.Removed` | media/js/util.js:20-24 | fails (RangeError) exactly when the new length would be negative |
| `UtilJs.JsArray.Remove` | media/js/util.js:20-24 | the array becomes the removed sequence and the new length is returned; on error nothing changes |
| `UtilJs.RemoveOne` | media/js/util.js:20-24 | removing index i drops exactly that element |
| `UtilJs.RemoveRange` | media/js/util.js:20-24 | removing from..to drops exactly that inclusive range |
| `UtilJs.RemoveFromEnd` | media/js/util.js:20-24 | a negative index counts from the end |
| `UtilJs.TrimStart` | media/js/util.js:298 | a suffix that does not start with white space |
| `UtilJs.TrimEnd` | media/js/util.js:298 | a prefix that does not end with white space |
| `UtilJs.Trim` | media/js/util.js:298 | no longer than the input, and trimmed at both ends |
| `UtilJs.OutwardNearest` | media/js/util.js:315-333 | the outward search finds the space nearest the middle, the leftmost of two equally near |
| `UtilJs.SplitPoint` | media/js/util.js:310-335 | the loop finds that nearest space |
| `UtilJs.Halves` | media/js/util.js:301-340 | without spaces: split at the middle with a hyphen; with spaces: split at the nearest space; both halves are shorter |
| `UtilJs.Pieces` | media/js/util.js:292-343 | at least one piece |
| `UtilJs.PiecesShape` | media/js/util.js:292-343 | every piece is trimmed and no longer than len; a longer string gives several pieces |
| `UtilJs.ShortUnsplit` | media/js/util.js:298-299 | a string that fits is returned trimmed |
| `UtilJs.Cut` | media/js/util.js:301-340 | computes the two halves |
| `UtilJs.CleverSplit` | media/js/util.js:292-343 | non-strings are returned as they are; strings become their pieces joined by `<br/>` |
| `Sorting.SortBy` | indicator/models.py:75 | sorted by the key and a permutation of the input |
| `Sorting.SortByStable` | indicator/models.py:75 | the sort is stable: the elements of each key keep their original order |
| `Sorting.InsertByStable` | indicator/models.py:75 | inserting keeps each key's elements in order and puts the new one after those of its key |
| `Sorting.WithKeyAppend` | indicator/models.py:75 | the elements of one key in a concatenation are those of each part, in turn |
| `Memcache.Cache.Get` | action/view_objects.py:53 | None exactly on a miss, else the stored value |
| `Memcache.Cache.Set` | action/view_objects.py:60 | stores the value under the key, nothing else changes |
| `Memcache.Cache.Delete` | action/view_objects.py:77 | removes the key only |
| `Memcache.Cache.DeleteMany` | action/view_objects.py:83 | removes exactly the listed keys |
| `Memcache.PairKey` | action/models.py:49-51 | the key starts with its prefix |
| `Memcache.PairKeyInjective` | action/view_objects.py:39-41 | different campaign or user numbers never share a key |
| `Memcache.PairKeysCount` | action/view_objects.py:79-83 | distinct users give as many distinct keys |
| `Actions.Matching` | action/models.py:104-106 | the pledges counted by a query |
| `Actions.Narrowing` | action/models.py:105 | a missing or empty user list does not narrow |
| `Actions.PledgeCount` | action/models.py:100-107 | all the action's pledges when not narrowed, never more when narrowed |
| `Actions.OpenPledgeCount` | action/models.py:109-111 | never more than all pledges |
| `Actions.CompletedCount` | action/models.py:113-120 | all completed pledges when not narrowed; never more than the pledge count for the same users |
| `Actions.CompletionSplit` | action/models.py:109-120 | every pledge is open or completed, never both |
| `Actions.NarrowingOnlyReduces` | action/models.py:105-106 | narrowing to users never adds pledges |
| `Actions.PledgeCountIsOpenPlusCompleted` | action/view_objects.py:102-105 | the total is open plus completed |
| `Actions.CountedIsCounted` | action/models.py:104-107 | a matching pledge is counted |
| `Actions.PledgesBy` | action/models.py:88 | the pledges of one user for one action |
| `Actions.GetPledge` | action/view_objects.py:95 | a pledge of that user to that action exactly when there is one such pledge; DoesNotExist exactly when there is none; otherwise MultipleObjectsReturned |
| `Actions.AtMostOnePledgeBy` | action/models.py:88 | a table built by get-or-create holds at most one pledge per user and action |
| `Actions.GetPledgeWellFormed` | action/view_objects.py:92-100 | in such a table the lookup never finds several |
| `Actions.GetOrCreate` | action/models.py:88 | creates exactly when none exists, appending an open pledge with the next id |
| `Actions.GetOrCreateKeepsWellFormed` | action/models.py:88 | never fails on a well-formed table, keeps it well formed, and the pledge then exists |
| `Actions.PledgeIdempotent` | action/models.py:84-98 | pledging twice creates nothing the second time |
| `Actions.Popular` | action/models.py:42-47 | at most limit actions of the campaign; all of them when it has fewer |
| `Actions.OfCampaign` | action/models.py:46 | exactly the campaign's actions |
| `Actions.DashboardCacheKeyInjective` | action/models.py:49-51 | one dashboard key per campaign and user |
| `Actions.ClearDashboardCache` | action/models.py:53-57 | removes exactly the members' dashboard keys |
| `Actions.ClearKeepsOtherCampaigns` | action/models.py:53-57 | another campaign's keys survive |
| `Actions.ActionStore.constructor` | action/models.py:59-79 | no pledges or entries yet |
| `Actions.ActionStore.PledgeAction` | action/models.py:84-98 | get-or-create; an entry is posted only for a new pledge; the dashboard keys are cleared; on a well-formed table it always succeeds and keeps it well formed |
| `Actions.ActionStore.CommentCountOf` | action/models.py:133 | at most the number of comments |
| `Actions.ActionStore.UpdateCommentCount` | action/models.py:126-138 | the stored count becomes the real one, and the action is saved only if it changed |
| `Actions.CommentsOf` | action/models.py:133 | the comments of the action |
| `ActionViews.MakeBarrierView` | action/view_objects.py:134-142 | `i_have` holds exactly when a user is given and is among the barrier's users |
| `ActionViews.BarriersOf` | action/view_objects.py:115 | the action's barriers |
| `ActionViews.ViewOf` | action/view_objects.py:85-122 | pledged exactly when the user has a pledge, completed exactly when the user has a completed pledge; counts exclude the viewer's own pledge and stay non-negative; fails with MultipleObjectsReturned or, for an action without creator, AttributeError |
| `ActionViews.ViewOfWellFormed` | action/view_objects.py:92-100 | with a well-formed pledge table only a missing creator fails |
| `ActionViews.NewActionView` | action/view_objects.py:85-122 | the constructor computes that view |
| `ActionViews.IndexKeyIsNotPopularKey` | action/view_objects.py:38-46 | the index key never collides with a user's key |
| `ActionViews.IndexOf` | action/view_objects.py:63 | an absent index reads as empty |
| `ActionViews.WithViewer` | action/view_objects.py:62-66 | the user is in the index afterwards; other keys are untouched |
| `ActionViews.IndexGainsViewerOnce` | action/view_objects.py:64-66 | the index gains the user at the end only if absent, and never holds duplicates |
| `ActionViews.Uncompleted` | action/view_objects.py:59 | the views not completed |
| `ActionViews.UncompletedCounts` | action/view_objects.py:59 | keeps every uncompleted view as often as it occurs |
| `ActionViews.UncompletedSorted` | action/view_objects.py:58-59 | filtering keeps the order |
| `ActionViews.Ranked` | action/view_objects.py:58-59 | most pledged first, no completed view, exactly the uncompleted views |
| `ActionViews.ViewsOf` | action/view_objects.py:57 | one view per action; fails exactly when one view fails |
| `ActionViews.Popular` | action/view_objects.py:48-68 | a cache hit returns the cached list untouched; otherwise the ranked views are cached and the user enters the index |
| `ActionViews.BuildViews` | action/view_objects.py:57 | the loop builds those views |
| `ActionViews.LaterErrorPersists` | action/view_objects.py:57 | the first failing view aborts the list |
| `ActionViews.ClearPopularCache` | action/view_objects.py:70-83 | an empty index changes nothing; otherwise the index and every indexed user's key are removed |
| `ActionViews.ClearPopularCacheCount` | action/view_objects.py:79-83 | one distinct key per indexed user, none of them the index key |
| `Campaigns.Filter` | campaign/models.py:64 | a query filter: the rows kept, in order |
| `Campaigns.FilterNarrower` | campaign/models.py:61-64 | a narrower query finds no more rows |
| `Campaigns.Default` | campaign/models.py:50-80 | the exact slug match when unique; MultipleObjectsReturned for several; otherwise the organisation's only campaign, or UserMustSelectCampaign |
| `Campaigns.DefaultSingleCampaign` | campaign/models.py:60-65 | an organisation with one campaign always gets it |
| `Campaigns.SingleFilter` | campaign/models.py:64-65 | a query matching one row returns just it |
| `Campaigns.NoneKept` | campaign/models.py:62 | a query matching nothing is empty |
| `Campaigns.UsersOf` | campaign/models.py:129 | the members' users |
| `Campaigns.GetMembership` | campaign/models.py:218 | the user's membership exactly when the user has one membership row; DoesNotExist exactly when the user is not a member; otherwise MultipleObjectsReturned |
| `Campaigns.Added` | campaign/models.py:127-131 | the user becomes a member; nobody else joins |
| `Campaigns.AddUserIdempotent` | campaign/models.py:127-131 | adding a member again changes nothing |
| `Campaigns.AddedKeepsOneRowPerUser` | campaign/models.py:129-130 | one membership per user is kept |
| `Campaigns.Campaign.constructor` | campaign/models.py:87-118 | no statistics memo yet |
| `Campaigns.Campaign.AddUser` | campaign/models.py:127-133 | a new member clears the two user cache keys; an existing one changes nothing |
| `Campaigns.Campaign.GetStartDate` | campaign/models.py:213-219 | the fixed start, or the member's join date, succeeding exactly when the user has one membership row, and DoesNotExist for a non-member |
| `Campaigns.Campaign.GetEndDate` | campaign/models.py:221-228 | the fixed end, or defined exactly when the start is |
| `Campaigns.Campaign.SameDuration` | campaign/models.py:221-228 | every member's campaign lasts as long as the fixed one |
| `Campaigns.Campaign.ActiveUserIds` | campaign/models.py:170-190 | exactly the users with an answer to a campaign indicator on or after the cutoff, 30 days back by default |
| `Campaigns.ActiveThrough` | campaign/models.py:183-188 | the same set, as a definition |
| `Campaigns.Campaign.UsersJson` | campaign/models.py:192-204 | a non-empty cached value is returned unless forced; no users gives "[]" and caches nothing; otherwise the encoding of the non-system members, sorted by username, is returned and cached |
| `Campaigns.NonSystem` | campaign/models.py:197 | the members who are not system users |
| `Campaigns.Campaign.GetStats` | campaign/models.py:230-280 | per-user statistics are always recomputed; campaign statistics are computed once and then memoised |
| `Campaigns.StatsOf` | campaign/models.py:244-276 | ZeroDivisionError exactly for campaign statistics with no members; per-user results lack the last three fields; answers per user is the floor quotient; the completion percentage is in 0..100 |
| `Campaigns.PerUser` | campaign/models.py:271 | floor division bounds |
| `Campaigns.CompletedPct` | campaign/models.py:273-276 | 0 with no pledges, else completed/pledged*100, within 0..100 |
| `Campaigns.UserStatsBounded` | campaign/models.py:249-265 | a user's counts never exceed the campaign's |
| `Campaigns.CompletedBounded` | campaign/models.py:255-259 | a user's completed pledges never exceed the campaign's |

## Left out

- Floating point: answer values, averages and percentages are exact reals, with no IEEE rounding. The `int()`, `math.ceil` and Python 2 integer division the source applies are modelled explicitly. Whether a percentage is a Python int or a float is tracked only where it changes a result: in the day score's division.
- `Answers.ValuesOf`: `indicator/util.py` is not part of this model. Its `answer_map_by_date` is taken to build the same date-to-value map as `_map_by_date` in `profile/models.py:359-364`, the last answer of a date winning, and is modelled by `Profiles.DateMap`.
- The Django ORM and the database are sequences of rows. Transactions, concurrent writers and the missing unique constraint (`indicator/models.py:885-887`) are not modelled. The answer table's invariant instead states that `get_or_create` keeps one row per key.
- Memcache is one map, with no expiry, eviction or concurrency.
- `ActionViews.Popular`: a cached value that is not a non-empty list of views counts as a miss.
- `ActionViews.IndexOf`: an index entry that is not a list of ids reads as empty.
- The caches of `all_regular_indicators`, `average_user`, `overall_indicator`, `num_users` and `CampaignManager.default` are left out. The model reads each value afresh.
- `Answers.AnswerTable.UpdateAverages`: the average user and each campaign's OVERALL indicator are fields of the world the engine reads. So `average_user()` raising DoesNotExist when no AVERAGE profile exists (`indicator/models.py:110-119`), and `overall_indicator` raising MultipleObjectsReturned for a campaign with two OVERALL indicators (`indicator/models.py:121-129`), are not modelled. A campaign with no OVERALL indicator does give DoesNotExist.
- `Campaigns.Default`: the cached-campaign shortcut is not modelled.
- The local clock, `datetime.date.today()` and the user's time zone are parameters: `yesterday`, `today`, `cutoff`.
- Messaging to the background worker is a ghost list of the answer ids sent. The worker itself, `ge_worker` and the queue are not part of this model.
- `Answers.AnswerTable.CreateUpdate`: a given answer is assumed to be the table's row for the same key. The source would overwrite whatever row it is given.
- `Answers.AnswerTable.FillMissing`: Python dictionary iteration order is not modelled. The fill-in visits dates in an arbitrary order, chosen by `Sorting.Pick`.
- `Answers.AnswerTable.UpdateAverages`: when the distance update fails after the averages were written, the model keeps the written averages. Which error is reported is then stated only for the case where the recomputation itself succeeded.
- Indicator subclasses are reached by reflection in the source. Here they are a `Kind` datatype (Likert with its option count, Number with its range and target). `random_value`, `display_type`, `answer_value`, labels and URLs are not modelled.
- The participation counting in `recalc_points` takes the three counts as parameters. The queries on other apps are not part of this model.
- Images and the file system in `profile_pic_filename` are not modelled: darkening, `glob`, absolute paths. The disk match is a parameter.
- `CoreUtil.Slugify`: the slug from Django's `defaultfilters.slugify` is an input. Only the truncation is modelled.
- `UtilJs.Trim`: `$.trim` strips the ECMAScript white space and line terminators. The jQuery version in use may differ for a few Unicode spaces.
- `UtilJs.CleverSplit` requires `len >= 2`. For smaller lengths the source can recurse on a piece that does not shrink. The only caller passes 10.
- `Campaigns.Campaign.UsersJson`: the JSON encoding of the user maps is a parameter, and system users are a set parameter. Usernames are not modelled: the database's collation of them is a parameter giving each user's place in username order.
- `Answers.AverageRows`: a group's `avg_user` may be null in the source (`profile/models.py:55`). Averaging for such a group reaches `get_or_create` with no user, which raises IntegrityError. Here every group has its average user, so that failure is not modelled, nor is it in `Answers.GroupAverages`.
- `Actions.ActionStore.PledgeAction`: `EntryView.refresh_recent_activity` and `Entry.objects.clear_dashboard_cache` belong to the status app and are not modelled. The campaign's members are a parameter.
- `ActionViews.ViewOf`: `description`, `learn_more` and the creator's name, URL and thumbnail are not modelled. The creator's id and the failure when there is none are.
- `Action.recent_pledges` and `Pledge.created` are not modelled. They order by a creation time the model does not keep.
- `Campaign.num_users`, `campaign_files_dir`, the URL helpers and `get_invite_message` are not modelled. They are presentation or cache wrappers.
- `Campaigns.StatsOf`: `num_users` is the number of memberships, and the completion percentage is an exact real.
- The campaign statistics memo is not invalidated when the tables change. This matches the source, which keeps `_stats` for the life of the object.

## Findings

| source | as written | input that shows it | evidently intended | confidence | as-written member | corrected member |
|---|---|---|---|---|---|---|
| core/util.py:95-96 | `isinstance(obj, datetime.date)` also holds for a datetime, and `datetime.combine(obj, datetime.time())` then keeps only its date, so a datetime is sent as its day's midnight | 2015-03-01 13:45 UTC gives 1425168000000 instead of 1425217500000 (`CoreUtil.AfternoonLost`; `CoreUtil.DateTimeIsItsDate` for every datetime) | the docstring's milliseconds since the epoch, time of day included | not executed | `CoreUtil.JsonEncoderDefault` | `CoreUtil.JsonEncoderIntended` |
