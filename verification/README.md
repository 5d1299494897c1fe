# A model of ycnt's printers, asynchronous logger and epoll poller

Three parts of ycnt are modelled and proved here.

**Printing numbers.** `DiyFloat`, `CachedPowers`, `DigitGen`, `Grisu`, `Layout` and
`Dtoa` follow the double printer from the bits of a double to the characters in the
buffer. A double is a sign, a biased exponent and a significand field, as in section 3.4
of IEEE 754-2008; a machine word is a natural number below 2^64, and that nothing wraps
is proved, not assumed. The chain ends in a round trip: the text printed for any finite
double, read by a parser that knows nothing of the printer, rounds to that double. On the
way: every one of the 87 cached powers is accurate to half a unit, three roundings lose
less than one unit, the two digit loops share one invariant, the unbounded loop ends
within 17 digits, and the digits are the shortest in the interval that is searched.
`Shortness` says exactly when they are the shortest that would do.
`WholeDoubles` says where the point of a double's decimal falls. `Convert` does the integer
printer, `LogStream` the guard in front of both.

**The asynchronous logger.** `AsyncLogging` is a transition system whose steps are the
lock-protected regions of `append` and `threadFunc`; any number of threads may interleave.
`LogBuffers` says what each region does to the buffers, `AsyncRuns` that every run keeps
the invariant, `AsyncTheorems`, `AsyncStop`, `AsyncProgress` and `AsyncFiles` what follows:
conservation and order of the lines, what a stop leaves behind, single ownership, a bounded
pool, freedom from deadlock, bounded turns of the writer, and whole lines in the rolled
files. `LogFile` is the roller under any clock
readings and any partial writes. `AsyncObjects` has the logger as an object: its `append`
and one turn of its writer loop, proved to be runs of the transition system, so that an
object after any calls is in a reachable state. `AsyncBatches` says which buffers are
published, written and dropped, of that turn and over every run.

**Registration with epoll.** `Registration` has the flag and mask of each channel, the
poller's map and the kernel's interest set as values, and the exact condition under which
no assert fails; `EpollPoller` has channels and poller as objects.

Where code and comments disagree the code is followed:

- `dtoa_milo` returns the number of digits plus one. That is the length of its text
  exactly for zero and for positive doubles above one that are not whole
  (`Dtoa.CountIsTextLength`), and not for 1.0 (`Dtoa.CountMissesOne`). The round trip is
  therefore about the NUL-terminated text, and `LogStream` keeps a prefix of it
  (`Dtoa.KeptTextReads`), which for 1e20 is "10" (`Dtoa.KeptOfLargePower`).
- `kPow10` has ten entries, but its index passes nine for many doubles. It stays in the
  table exactly for those that meet `TableFits`, a comparison of two remainders
  (`Grisu.Grisu2`, `DigitGeneration.DigitGen`); 1 + 2^-52 does not
  (`Shortness.NextToOneOverruns`), and gets to place twelve or later
  (`Grisu.TableOverrun`); sixteen is a proved upper bound. Past the end the multiplier is
  an arbitrary word; only the claim of nearness needs the table.
- The digits are not always the shortest that round to the double, because the interval
  is tightened by a unit at each end: `Shortness.LongIsNotShortest` is a double printed
  with a digit too many, and `Shortness.ShortestUnlessHidden` says exactly when that is so.
- The writer leaves its loop without a last pass, so not everything appended before `stop`
  is written. At the moment of the stop it is known what will be: `AsyncStop.StopSettles`
  is the exact condition, and `AsyncStop.CoveredSettles` what holds of it when appenders go
  on. `AsyncTheorems.StopLeavesLines` is a run that leaves a line behind, and
  `AsyncObjects.PassSettlesAll` what a pass would achieve.
- `hasChannel` asks for the descriptor, not for the channel:
  `Registration.HasChannelMeans` and `Registration.HasChannelMisleads`.

`dafny verify dfyconfig.toml` covers the whole project.

## Model

Rows that begin with **Main** are the results the others lead to.

| member | source | states |
|---|---|---|
| `DiyFloat.CountLeadingZeros` | ycnt/base/Utils.cpp:67-71 | the shift that brings a nonzero word into [2^63, 2^64), without losing a bit |
| `DiyFloat.DiyFp.Minus` | ycnt/base/Utils.cpp:49-54 | subtraction under the two asserts of the source: the result added back gives the minuend, on the same exponent |
| `DiyFloat.DiyFp.Times` | ycnt/base/Utils.cpp:56-65 | the rounded product is within half a unit of the exact 128-bit product over 2^64, and the rounding increment never wraps |
| `DiyFloat.DiyFp.NormalizeBoundary` | ycnt/base/Utils.cpp:73-83 | the bit-by-bit loop ends, drops no bit, and agrees with Normalize on every boundary of a double |
| `DiyFloat.DiyFp.NormalizedBoundaries` | ycnt/base/Utils.cpp:85-95 | the two midpoints, exact, on a common exponent that is also that of the normalized number; half the gap below for a bare hidden bit |
| `DiyFloat.BoundaryShift` | ycnt/base/Utils.cpp:73-95 | the shifts of the boundaries are between 10 and 62, one less than that of the number, and exactly 10 for a normal one |
| `DiyFloat.MinusFits` | ycnt/base/Utils.cpp:88-92 | aligning the lower boundary never wraps its word |
| `CachedPowers.CachedPowerError` | ycnt/base/Utils.cpp:109-168 | **Main:** each of the 87 cached powers is its power of ten to within half a unit in the last place |
| `CachedPowers.EntryCheck` | ycnt/base/Utils.cpp:109-168 | neighbouring table entries differ by a factor 10^8 up to a residue that a 128-bit certificate bounds, and the exponents agree |
| `CachedPowers.ExponentWindow` | ycnt/base/Utils.cpp:170-182 | for every boundary exponent of a double the index is in the table and the product exponent is in [-60, -34] |
| `CachedPowers.SameCeiling` | ycnt/base/Utils.cpp:170-178 | the two rounded double operations and the rounded constant never move the ceiling: no multiple of the constant comes near a whole number, save zero |
| `CachedPowers.GetCachedPower` | ycnt/base/Utils.cpp:109-183 | **Main:** the table entry for the exponent, a normalized power 10^-K within half a unit with the product exponent in the window, with the index computed in double arithmetic under any rounding |
| `CachedPowers.CachedPowerFits` | ycnt/base/Utils.cpp:109-183 | the table entry at that index is a normalized power 10^-K within half a unit, with the product exponent in the window |
| `DigitGeneration.KPow10` | ycnt/base/Utils.cpp:224-225 | the ten table entries are the powers of ten |
| `DigitGeneration.CountDecimalDigit32` | ycnt/base/Utils.cpp:201-214 | the count is the number of decimal digits: between the right two powers of ten for every 32-bit word |
| `DigitGeneration.RoundStepsNearest` | ycnt/base/Utils.cpp:185-199 | **Main:** the loop of GrisuRound stops at the first candidate within delta that is nearest to its target: earlier ones are farther, later ones no nearer |
| `DigitGeneration.GrisuRound` | ycnt/base/Utils.cpp:185-199 | lowers the last digit in place, by that number of steps, and never below zero |
| `DigitGeneration.ProgressNoMultiple` | ycnt/base/Utils.cpp:233-299 | while the remainder is not inside delta, no multiple of the current power of ten lies in the half-open interval, nor, in the first loop with its stricter test, at its open end |
| `DigitGeneration.IntegralStep` | ycnt/base/Utils.cpp:233-283 | one turn of the first loop: emitted digits times the power plus the remainder stay equal to Mp exactly, the digit is at most 9, and the loop goes on only outside the interval |
| `DigitGeneration.FractionStep` | ycnt/base/Utils.cpp:286-299 | one turn of the second loop: the same equation in tenfold units, the tenfold products fit their words, and delta grows towards one |
| `DigitGeneration.NudgedIsNearest` | ycnt/base/Utils.cpp:268-298 | the nudged digits are the multiple of the last power of ten nearest to the scaled value among those in the interval |
| `DigitGeneration.NudgedInside` | ycnt/base/Utils.cpp:193-198 | whatever the target passed to GrisuRound, the result stays inside the interval |
| `DigitGeneration.LengthBound` | ycnt/base/Utils.cpp:286-299 | before stopping there are at most 16 digits |
| `DigitGeneration.Finish` | ycnt/base/Utils.cpp:268-298 | from the linked invariant to the result: digits, nonzero first digit, inside, nothing shorter, nearest when at most nine fractional digits |
| `DigitGeneration.RoundLast` | ycnt/base/Utils.cpp:272-298 | both exits: the digits left in the buffer are the result |
| `DigitGeneration.FractionalDigits` | ycnt/base/Utils.cpp:285-299 | the unbounded loop ends, within 17 digits in all, with no word wrapping; the multiplier past the end of kPow10 may be any word, and one is needed if and only if the fraction of Mp * 10^9 is not below delta * 10^9 |
| `DigitGeneration.DigitGen` | ycnt/base/Utils.cpp:216-300 | **Main:** for every interval Grisu2 can hand it: 1 to 17 digits whose value is in [Mp - delta, Mp], with no multiple of a larger power of ten in (Mp - delta, Mp], nor at its open end for integral powers; the index into kPow10 stays in the table if and only if the fraction of Mp is within delta or that of Mp * 10^9 below delta * 10^9, and then the digits are nearest to W of their length |
| `DigitGeneration.InsideAtNine` | ycnt/base/Utils.cpp:285-299 | a remainder inside delta at any place from zero to nine bounds the fraction of Mp * 10^9 |
| `DigitGeneration.OutsideAtNine` | ycnt/base/Utils.cpp:285-299 | a remainder outside delta at the ninth place is that fraction |
| `Ieee754.ValueIs` | ycnt/base/Utils.cpp:31-47 | a normal double is 1.fraction times two to its biased exponent less 1023, a subnormal one 0.fraction times two to -1022 |
| `Ieee754.Gaps` | ycnt/base/Utils.cpp:31-47 | on the grid of all finite doubles, the neighbours of a decoded double are one unit away, or half a unit below a bare hidden bit |
| `Ieee754.NearerThanOther` | ycnt/base/Utils.cpp:31-47 | strictly between the two midpoints a number is nearer to its double than to any other |
| `Ieee754.UpperWithinBound` | ycnt/base/Utils.cpp:31-47 | no interval of a finite double reaches past the overflow threshold, and that of the largest ends at it |
| `Ieee754.InsideRoundsTo` | ycnt/base/Utils.cpp:302-315 | **Main:** a decimal strictly between the midpoints rounds to the signed double under rounding to nearest (section 4.3.1 of IEEE 754-2008): it is below the overflow threshold, and every other finite double is farther away |
| `Grisu.ProductBracket` | ycnt/base/Utils.cpp:308-313 | three roundings together lose less than one unit: the product less one and plus one strictly bracket the exact scaled value |
| `Grisu.UnitAtMost` | ycnt/base/Utils.cpp:308-311 | one unit of a product is at most three units of the factor, so the tightening costs under 1/256 of the interval |
| `Grisu.BoundariesSpaced` | ycnt/base/Utils.cpp:304-309 | the boundaries of every double, normal or subnormal, are at least 2^10 and 2^9 words away from it |
| `Grisu.IntervalFits` | ycnt/base/Utils.cpp:309-314 | **Main:** Wm++ and Wp-- do not wrap, Wm <= W <= Wp and Wm < Wp hold, so the asserts of the subtraction do, and delta is large enough for 17 digits |
| `Grisu.BoundaryExponent` | ycnt/base/Utils.cpp:302-308 | normalized boundaries of finite doubles have exponents in [-1137, 960] |
| `Grisu.BoundaryValues` | ycnt/base/Utils.cpp:85-95 | the words the boundaries end up in stand exactly for the two midpoints |
| `Grisu.IntervalBrackets` | ycnt/base/Utils.cpp:308-314 | the interval given to DigitGen lies strictly inside the midpoints, and each end is within 1/256 of its width |
| `Grisu.ScaledOrder` | ycnt/base/Utils.cpp:216-315 | comparing scaled integers at decimal position kappa is comparing the decimals they stand for |
| `Grisu.FewerDigitsOutside` | ycnt/base/Utils.cpp:233-299 | no decimal with fewer digits, at any exponent, lies in the half-open scaled interval |
| `Grisu.ShortestIsShort` | ycnt/base/Utils.cpp:302-315 | what DigitGen promises of integers, said of decimals and of the double |
| `Grisu.Grisu2` | ycnt/base/Utils.cpp:302-315 | **Main:** for every positive finite double: 1 to 17 digits D and exponent K with D * 10^K strictly between the midpoints, no shorter decimal in the interval less 1/256 at each end; the digits are the shortest of the exact scaled interval; the index into kPow10 stays in the table if and only if `TableFits` holds of the double, and then no other decimal of that exponent in the scaled interval is nearer to the double itself by more than two units; nothing else written |
| `Grisu.ScaledFits` | ycnt/base/Utils.cpp:302-314 | the scaled interval of a double, and of its midpoints, is what DigitGen asks for |
| `Grisu.EndsBracket` | ycnt/base/Utils.cpp:308-314 | each end of the scaled interval is inside its midpoint by less than two units, so the tightening is by one |
| `Grisu.TargetBracket` | ycnt/base/Utils.cpp:309 | the word the last digit is nudged towards stands for the double to less than one unit |
| `Grisu.UnitIsSmall` | ycnt/base/Utils.cpp:308-311 | two units are at most 1/256 of the rounding interval |
| `Grisu.NearestIsClosest` | ycnt/base/Utils.cpp:185-199 | digits nearest to that word are nearer to the double itself than any other decimal of their exponent in the scaled interval, but for two units |
| `Grisu.TableOverrun` | ycnt/base/Utils.cpp:296 | for 1 + 2^-52 the fractional loop stops at place twelve or later, past the ten entries of the table |
| `Shortness.NextToOneOverruns` | ycnt/base/Utils.cpp:296 | 1 + 2^-52 does not meet the condition under which the index stays in the table |
| `Shortness.ScaledInside` | ycnt/base/Utils.cpp:308-314 | the exact ends of the scaled interval lie strictly inside the midpoints |
| `Shortness.ShortestUnlessHidden` | ycnt/base/Utils.cpp:302-315 | **Main:** the digits are the shortest of the full rounding interval if and only if no shorter decimal lies between a midpoint and the end of the scaled interval next to it |
| `Shortness.LongIsNotShortest` | ycnt/base/Utils.cpp:302-315 | 235688069849193316352 is printed with 17 digits, although 2356880698491933 * 10^5 lies strictly between its midpoints |
| `Decimals.IntTextReads` | ycnt/base/Utils.h:18-37 | decimal integer text, negative or not, parses to the integer and has no superfluous zero |
| `Layout.LayoutReads` | ycnt/base/Utils.cpp:367-403 | **Main:** each of the five layouts, for any digits and any exponent, parses to exactly D * 10^k by a reader that does not know the layouts |
| `Layout.SignReads` | ycnt/base/Utils.cpp:417-420 | a minus sign in front negates what is read |
| `Layout.LayoutLength` | ycnt/base/Utils.cpp:367-403 | at most 24 characters for 17 digits and a three-digit exponent |
| `Layout.LayoutForm` | ycnt/base/Utils.cpp:367-403 | the text has an exponent if and only if there are more than 21 digits in front of the point or more than five zeros behind it; then it has one nonzero digit before the point, all digits and the exponent; otherwise a point with digits on both sides, no superfluous zero in front and exactly the places needed behind, one at least |
| `Layout.CountIsLength` | ycnt/base/Utils.cpp:405-426 | digits plus one is the text length exactly for unsigned text with the point among the digits |
| `Dtoa.WriteExponent` | ycnt/base/Utils.cpp:344-365 | leaves the decimal text of K and a NUL, for |K| <= 999, and nothing else |
| `Dtoa.Prettify` | ycnt/base/Utils.cpp:367-403 | **Main:** turns the digits in the buffer into their layout and a NUL, in place, despite overlapping moves; which layout that is, is `Layout.LayoutForm` |
| `Dtoa.PrettifyIntegral` | ycnt/base/Utils.cpp:371-377 | 1234e7 becomes 12340000000.0 |
| `Dtoa.PrettifyMixed` | ycnt/base/Utils.cpp:378-382 | 1234e-2 becomes 12.34 |
| `Dtoa.PrettifySmall` | ycnt/base/Utils.cpp:383-391 | 1234e-6 becomes 0.001234 |
| `Dtoa.PrettifyPower` | ycnt/base/Utils.cpp:392-395 | 1e30 stays a power |
| `Dtoa.PrettifyScientific` | ycnt/base/Utils.cpp:396-402 | 1234e30 becomes 1.234e33 |
| `Dtoa.DoubleTextReads` | ycnt/base/Utils.cpp:405-426 | **Main:** round trip: the text printed for any finite double parses to a number that rounds to that double, and with its NUL takes at most 26 characters |
| `Dtoa.DoubleTextForm` | ycnt/base/Utils.cpp:405-426 | **Main:** the text of a nonzero double has an exponent if and only if the printed decimal is at least 10^21 or below 10^-6, and the form that goes with it |
| `WholeDoubles.InsideIsSame` | ycnt/base/Utils.cpp:302-315 | no other double lies strictly between the midpoints of a double |
| `WholeDoubles.NotWholeHasFraction` | ycnt/base/Utils.cpp:302-315 | the digits of a double that is not whole go beyond the point |
| `WholeDoubles.FractionIsNotWhole` | ycnt/base/Utils.cpp:302-315 | several digits that go beyond the point belong to a double that is not whole |
| `WholeDoubles.SideOfOne` | ycnt/base/Utils.cpp:302-315 | a double that is not whole and its printed decimal are on the same side of one |
| `WholeDoubles.PointAmongDigits` | ycnt/base/Utils.cpp:367-403 | the point falls strictly among the digits exactly for doubles above one that are not whole |
| `WholeDoubles.PowerHasOneDigit` | ycnt/base/Utils.cpp:302-315 | a power of ten that is a normal double is printed as the digit one |
| `Dtoa.CountIsTextLength` | ycnt/base/Utils.cpp:410-425 | **Main:** the returned count never exceeds the text, and is its length if and only if the double is zero, or is above one, not whole and not negative |
| `Dtoa.KeptTextReads` | ycnt/base/Utils.cpp:425 | the prefix of as many characters as the count is the whole text exactly for those doubles, and then reads back; so it does for whole numbers printed with all their digits, and for positive ones with one zero more |
| `Dtoa.KeptOfLargePower` | ycnt/base/Utils.cpp:425 | of 1e20 the prefix is "10", which does not round to it |
| `Dtoa.CountMissesOne` | ycnt/base/Utils.cpp:425 | 1.0 is printed as "1.0", whose length is not the count |
| `Dtoa.ZeroTextReads` | ycnt/base/Utils.cpp:411-415 | "0.0" reads back as either zero |
| `Dtoa.DtoaMilo` | ycnt/base/Utils.cpp:405-426 | **Main:** the NUL-terminated text in the buffer is the text of the double, of the digits Grisu2 promises, nothing behind it is written, and the count is the number of digits plus one |
| `Convert.OneDigit` | ycnt/base/Utils.h:26-30 | one turn with truncating division: the symmetric table gives the right digit for either sign, and what is written and left still make up the number |
| `Convert.Shrinks` | ycnt/base/Utils.h:26-30 | truncating division by ten moves every nonzero integer, the least one included, nearer to zero |
| `Convert.ReverseInPlace` | ycnt/base/Utils.h:35 | the range is reversed in place and nothing else moves |
| `Convert.WriteDigits` | ycnt/base/Utils.h:24-30 | reversed, the digits written are the decimal text of the magnitude |
| `Convert.ConvertInt` | ycnt/base/Utils.h:18-37 | **Main:** the decimal text of the integer, its NUL, and the length as the result, for every integer of either sign |
| `FixedBuffers.Filled` | ycnt/base/Buffer.h:35-41 | appending is plain concatenation when there is room, and otherwise keeps as much of it as fills the size |
| `FixedBuffers.FixedBuffer.Append` | ycnt/base/Buffer.h:35-41 | the contents after appending, cut at the size, and the number of characters taken |
| `FixedBuffers.FixedBuffer.Add` | ycnt/base/Buffer.h:53-56 | characters already written behind the cursor become contents |
| `FixedBuffers.FixedBuffer.Reset` | ycnt/base/Buffer.h:58-61 | nothing is left |
| `LogStreams.WordTextLength` | ycnt/base/LogStream.cpp:20-27 | any 64-bit integer takes at most 21 characters, inside the guard |
| `LogStreams.LogStream.FormatInt` | ycnt/base/LogStream.cpp:20-27 | the whole integer is appended, or nothing when fewer than 32 characters are free |
| `LogStreams.LogStream.FormatDouble` | ycnt/base/LogStream.cpp:20-27 | the double is written in full inside the guard, and as many characters kept as dtoa_milo counts: all of them exactly for zero and for doubles above one that are not whole |
| `LogFiles.RunKeeps` | ycnt/base/File.cpp:60-112 | **Main:** for any clock readings and any partial writes: creation seconds strictly increase, startOfPeriod_ is the day of the last roll, no flush counts as older than it, every file is whole taken pieces, every closed file is flushed, all pieces in order are what the stream took |
| `LogFiles.RunLosesNothing` | ycnt/base/File.cpp:31-112 | **Main:** when writes succeed the files in order concatenate to the input and no piece is cut or split, whatever flushes come between |
| `LogFiles.AllTaken` | ycnt/base/File.cpp:31-48 | when writes succeed what the stream took is the input |
| `LogFiles.FlushReachesAll` | ycnt/base/File.cpp:94-97 | after a flush nothing in any file is unflushed, whatever came before |
| `LogFiles.AppendKeeps` | ycnt/base/File.cpp:73-92 | one append, whichever branch it takes, keeps the roller invariant and adds exactly its piece |
| `LogFiles.RollKeeps` | ycnt/base/File.cpp:99-112 | rolling keeps the invariant and moves no data |
| `LogFiles.WriteKeeps` | ycnt/base/File.cpp:31-48 | a write, full or partial, extends only the open file |
| `LogFiles.FlushKeeps` | ycnt/base/File.cpp:50-53 | flushing moves no data |
| `LogFiles.FlushDue` | ycnt/base/File.cpp:73-92 | after an append nothing in the open file is unflushed if and only if the size or the day started a new file, or on the same day the check found more than the flush interval gone by, or nothing was to be flushed; for any clock readings |
| `LogFiles.SizeBound` | ycnt/base/File.cpp:73-78 | after an append the open file is above rollSize if and only if it was so after the write and the clock had not passed the last roll; if it had, a new empty file was started at that reading |
| `LogFiles.DayRolls` | ycnt/base/File.cpp:80-90 | a check on another day starts a new, empty file once the clock has passed the last roll |
| `LogFiles.StartOfDay` | ycnt/base/File.cpp:103 | the period of a clock reading is the 86400 seconds from the last multiple of 86400 |
| `LogFiles.CountGoes` | ycnt/base/File.cpp:73-82 | after any calls the count is the number of appends that stayed within rollSize, modulo checkEveryN |
| `LogFiles.EveryNth` | ycnt/base/File.cpp:73-92 | **Main:** over every run, of the appends that stay within rollSize exactly every checkEveryN-th looks at the clock: it rolls on another day, flushes after the interval on the same one, and the others do neither |
| `LogFiles.CheckComes` | ycnt/base/File.cpp:79-81 | checkEveryN appends within rollSize include one that looks at the clock, and before it nothing is rolled |
| `LogFiles.DayComes` | ycnt/base/File.cpp:80-85 | checkEveryN appends within rollSize start a new, empty file if the clock reads another day past the last roll |
| `LogFiles.FlushComes` | ycnt/base/File.cpp:86-89 | checkEveryN appends within rollSize flush everything in the open file if the clock reads the same day and more than the interval past the last flush |
| `LogFiles.AppendFile.Append` | ycnt/base/File.cpp:31-48 | the retry loop writes a prefix, all of it on a working stream, and charges the full length either way |
| `LogFiles.LogFile.Roll` | ycnt/base/File.cpp:99-112 | the object rolls as the roller does, and opens a new file exactly when it says so |
| `LogFiles.LogFile.Append` | ycnt/base/File.cpp:73-92 | the object appends, rolls and flushes as the roller does |
| `LogFiles.LogFile.Flush` | ycnt/base/File.cpp:94-97 | everything in the open file is flushed, and nothing else changes |
| `LogBuffers.AcceptKeeps` | ycnt/base/AsyncLogging.cpp:87-88 | storing a line in a bucket keeps whole lines, conservation per bucket, single ownership, and no buffer is lost |
| `LogBuffers.PublishKeeps` | ycnt/base/AsyncLogging.cpp:93 | moving a full buffer to the front list keeps whole lines, conservation per bucket, single ownership, and no buffer is lost |
| `LogBuffers.TryPopKeeps` | ycnt/base/ThreadSafeContainer.h:55-65 | taking a pooled buffer keeps whole lines, conservation per bucket, single ownership, and no buffer is lost |
| `LogBuffers.FetchOrNewKeeps` | ycnt/base/AsyncLogging.cpp:29-37 | making a buffer when the pool is empty keeps whole lines, conservation per bucket, single ownership, and no buffer is lost |
| `LogBuffers.StoreKeeps` | ycnt/base/AsyncLogging.cpp:97 | giving a bucket its new buffer keeps whole lines, conservation per bucket, single ownership, and no buffer is lost |
| `LogBuffers.SwapKeeps` | ycnt/base/AsyncLogging.cpp:127-130 | swapping front and back lists keeps whole lines, conservation per bucket, single ownership, and no buffer is lost |
| `LogBuffers.TrimKeeps` | ycnt/base/AsyncLogging.cpp:131-141 | dropping all but two buffers of an overfull batch keeps whole lines, conservation per bucket, single ownership, and no buffer is lost |
| `LogBuffers.WriteOneKeeps` | ycnt/base/AsyncLogging.cpp:142-145 | writing and resetting a buffer of the batch keeps whole lines, conservation per bucket, single ownership, and no buffer is lost |
| `LogBuffers.EndBatchKeeps` | ycnt/base/AsyncLogging.cpp:142-145 | the end of the batch keeps whole lines, conservation per bucket, single ownership, and no buffer is lost |
| `LogBuffers.FlushOutKeeps` | ycnt/base/AsyncLogging.cpp:151-153 | flushing the log file keeps whole lines, conservation per bucket, single ownership, and no buffer is lost |
| `LogBuffers.TakeLastKeeps` | ycnt/base/AsyncLogging.cpp:147-149 | taking the last buffer of the batch keeps whole lines, conservation per bucket, single ownership, and no buffer is lost |
| `LogBuffers.PushPoolKeeps` | ycnt/base/AsyncLogging.cpp:38-43 | pushing it to the pool keeps whole lines, conservation per bucket, single ownership, and no buffer is lost |
| `LogBuffers.DiscardKeeps` | ycnt/base/AsyncLogging.cpp:38-43 | letting it go when the pool is full keeps whole lines, conservation per bucket, single ownership, and no buffer is lost |
| `LogBuffers.WriteOneChain` | ycnt/base/AsyncLogging.cpp:142-145 | writing the next buffer moves its lines from the batch to the settled ones, so the chain of a bucket is unchanged |
| `LogBuffers.TrimChain` | ycnt/base/AsyncLogging.cpp:131-141 | dropping moves whole buffers after the first two aside, in order |
| `LogBuffers.PutSound` | ycnt/base/AsyncLogging.cpp:87-88 | a buffer that is a concatenation of its lines is one after an append, cut or not |
| `AsyncLogging.AdvanceMoves` | ycnt/base/AsyncLogging.cpp:82-101 | each step of an appender takes and releases exactly the locks its position says, and leaves the batch alone |
| `AsyncLogging.AdvanceTrades` | ycnt/base/AsyncLogging.cpp:86-100 | an appender empties its bucket only between publishing and storing, and touches no other hand |
| `AsyncLogging.AdvanceOrders` | ycnt/base/AsyncLogging.cpp:84-100 | what the bucket accepted from each thread, with the line in flight, stays what was appended, in order |
| `AsyncLogging.SweepMoves` | ycnt/base/AsyncLogging.cpp:119-126 | the sweep takes bucket, front and pool locks in that order and releases them in reverse |
| `AsyncLogging.BatchMoves` | ycnt/base/AsyncLogging.cpp:110-150 | outside the sweep the writer holds at most one lock at a time |
| `AsyncLogging.BatchKeepsBatch` | ycnt/base/AsyncLogging.cpp:110-153 | the back list is empty at the top of the loop, as asserted, the last thing asked of the log file there was a flush, and every recycled buffer has been reset |
| `AsyncLogging.BatchKeepsRoom` | ycnt/base/AsyncLogging.cpp:38-43 | a pool with room when its size was read still has room when the buffer is pushed |
| `AsyncLogging.AppenderKeeps` | ycnt/base/AsyncLogging.cpp:82-101 | every step of every appender keeps the invariant |
| `AsyncLogging.WriterKeeps` | ycnt/base/AsyncLogging.cpp:103-154 | every step of the writer keeps the invariant |
| `AsyncLogging.CallKeeps` | ycnt/base/AsyncLogging.cpp:82-84 | so does entering append |
| `AsyncRuns.InitialHolds` | ycnt/base/AsyncLogging.cpp:50-72 | the logger starts in the invariant: a blank buffer in each bucket, four in the pool |
| `AsyncRuns.StartsEmpty` | ycnt/base/AsyncLogging.cpp:50-72 | an empty buffer for each bucket and four more in the pool, and nothing accepted, queued or written |
| `AsyncRuns.RunKeeps` | ycnt/base/AsyncLogging.cpp:82-154 | **Main:** every reachable state of every interleaving of any number of threads satisfies the invariant |
| `AsyncTheorems.BytesConserved` | ycnt/base/AsyncLogging.cpp:82-152 | **Main:** in every reachable state the bytes a bucket accepted are, in order, those written or dropped, of the batch, of the front list and of its buffer |
| `AsyncTheorems.OrderPreserved` | ycnt/base/AsyncLogging.cpp:82-152 | **Main:** in every interleaving the lines of each thread in the output are some of those it appended, as a buffer keeps them, in its order |
| `AsyncTheorems.NoNoticeNoLoss` | ycnt/base/AsyncLogging.cpp:131-141 | **Main:** as long as the output has no drop notice, the lines of each thread in it are a prefix of those it appended |
| `AsyncTheorems.WrittenSurvive` | ycnt/base/AsyncLogging.cpp:140 | dropping whole buffers leaves the order of the rest |
| `AsyncTheorems.ExitedSettles` | ycnt/base/AsyncLogging.cpp:110-154 | when the writer is done, everything a bucket accepted is settled if and only if nothing of it is in the front list and its buffer is empty |
| `AsyncTheorems.StopLeavesLines` | ycnt/base/AsyncLogging.cpp:110-154 | a reachable state in which the writer is done, a line appended before stop is in its bucket, and the log file was given nothing but a flush |
| `AsyncTheorems.CallsAre` | ycnt/base/AsyncLogging.cpp:82-152 | what a thread appended is what is settled, then what is still on its way |
| `AsyncStop.SweepMisses` | ycnt/base/AsyncLogging.cpp:118-126 | each step of the sweep leaves what the writer will miss of a bucket as it was |
| `AsyncStop.BatchMisses` | ycnt/base/AsyncLogging.cpp:110-154 | so does each other step of the writer, except that entering the loop again takes in what was left |
| `AsyncStop.AdvanceCovers` | ycnt/base/AsyncLogging.cpp:82-101 | an appender adds to what the writer will miss no more than it adds to what its bucket accepted |
| `AsyncStop.StepCovers` | ycnt/base/AsyncLogging.cpp:82-154 | no step of any thread takes back what the writer takes |
| `AsyncStop.CaughtMissesNothing` | ycnt/base/AsyncLogging.cpp:110-130 | nothing is missed if and only if the writer is before its swap or the front list has nothing of the bucket, and before the sweep of the bucket or its buffer is empty |
| `AsyncStop.StopSettles` | ycnt/base/AsyncLogging.h:43-48 | **Main:** when the logger is stopped and the writer runs on to its end, everything the bucket accepted is written or dropped if and only if it is caught in the state at the stop, and what is missed has the length known then |
| `AsyncStop.CoveredSettles` | ycnt/base/AsyncLogging.cpp:82-154 | **Main:** whatever the appenders go on to do, the bytes accepted by now that the writer will not miss as things stand are written or dropped when it is done: all of them when they are caught |
| `AsyncProgress.OneOwner` | ycnt/base/AsyncLogging.cpp:29-43 | **Main:** every live buffer is at exactly one place: a bucket, the front or back list, the pool or one hand |
| `AsyncProgress.PoolBounded` | ycnt/base/AsyncLogging.cpp:38-43 | **Main:** the pool never exceeds 16 although size check and push are separate regions, and pooled buffers are empty |
| `AsyncProgress.BucketHasBuffer` | ycnt/base/AsyncLogging.cpp:86-98 | whenever a bucket is unlocked it has a buffer, within its size, so no null is dereferenced and the assert holds |
| `AsyncProgress.OnlyLocksBlock` | ycnt/base/AsyncLogging.cpp:82-154 | a thread cannot take its next step if and only if the lock it waits for is held |
| `AsyncProgress.OwnersWaitLater` | ycnt/base/AsyncLogging.cpp:118-126 | whoever owns a lock waits only for locks later in the order bucket, front, pool |
| `AsyncProgress.NoDeadlock` | ycnt/base/AsyncLogging.cpp:82-154 | **Main:** in every reachable state, from any thread that is not done, a chain of at most four threads, each waiting for a lock the next one owns, ends in one that can step |
| `AsyncProgress.AppendEnds` | ycnt/base/AsyncLogging.cpp:82-101 | an append takes at most seven steps of its own |
| `AsyncProgress.WaitsWhenIdle` | ycnt/base/AsyncLogging.cpp:112-117 | the writer waits only when it has found the front list empty under its lock, and otherwise goes straight to the sweep |
| `AsyncProgress.TurnEnds` | ycnt/base/AsyncLogging.cpp:110-154 | every step of the writer brings the end of its turn nearer, save entering the loop again, and no step of another thread moves it away |
| `AsyncProgress.TurnsBounded` | ycnt/base/AsyncLogging.cpp:110-154 | in every reachable state the writer has at most 7 * buckets + 161 steps of its own to the end of its turn, however much was appended |
| `AsyncProgress.StopEnds` | ycnt/base/AsyncLogging.h:43-48 | **Main:** once stopped, the writer ends within those steps, whatever the appenders do |
| `AsyncFiles.StoredWhole` | ycnt/base/AsyncLogging.cpp:96-99 | a line is kept whole if and only if it fits an empty buffer |
| `AsyncFiles.LinesComeOutWhole` | ycnt/base/AsyncLogging.cpp:82-145 | **Main:** when all lines fit, the output holds each thread's lines whole and in order |
| `AsyncFiles.FilesHoldWholeLines` | ycnt/base/File.cpp:73-92 | **Main:** with successful writes the log files in order hold exactly the output, each file whole pieces, each piece a notice or whole lines: no line is cut or split between files |
| `AsyncFiles.WrittenIsFlushed` | ycnt/base/AsyncLogging.cpp:151-153 | in every reachable state in which the writer is done or has not yet taken its batch, nothing in any log file is unflushed, whatever the writes took |
| `AsyncObjects.BlockingQueue.Push` | ycnt/base/ThreadSafeContainer.h:29-34 | the element goes to the back |
| `AsyncObjects.BlockingQueue.TryPop` | ycnt/base/ThreadSafeContainer.h:54-65 | the front element, or nothing from an empty queue |
| `AsyncObjects.AppendIsRun` | ycnt/base/AsyncLogging.cpp:82-101 | append done with all locks free is a run of two or seven steps of the transition system |
| `AsyncObjects.PassIsRun` | ycnt/base/AsyncLogging.cpp:110-152 | so is one turn of the writer loop |
| `AsyncObjects.PassSettlesAll` | ycnt/base/AsyncLogging.cpp:110-152 | **Main:** one undisturbed turn writes or drops every byte accepted before it |
| `AsyncBatches.SweepPublishes` | ycnt/base/AsyncLogging.cpp:119-126 | the sweep publishes exactly the buckets that hold something, in order, and takes a pooled buffer for each while there is one |
| `AsyncBatches.PassWrites` | ycnt/base/AsyncLogging.cpp:110-152 | **Main:** of the buffers in the front list and the nonempty buckets, in that order, an undisturbed turn writes all, with no notice and nothing dropped, if they are at most 25; of more it writes exactly the first two, after a notice, and drops all others; then it flushes |
| `AsyncBatches.PassRefillsPool` | ycnt/base/AsyncLogging.cpp:38-43 | the size of the pool after that turn: every buffer written goes back while the pool has fewer than sixteen |
| `AsyncBatches.AppendPublishes` | ycnt/base/AsyncLogging.cpp:82-101 | an append publishes the buffer of its bucket if and only if the line is at least as long as what is free; otherwise the line joins what is there, and no other bucket changes |
| `AsyncBatches.AdvancePublishes` | ycnt/base/AsyncLogging.cpp:87-93 | the same of the steps of an append in any interleaving |
| `AsyncBatches.BatchAccounts` | ycnt/base/AsyncLogging.cpp:127-145 | each step of the writer keeps the account: whole batches so far, and the part of the present one that is done |
| `AsyncBatches.RunAccounts` | ycnt/base/AsyncLogging.cpp:131-145 | **Main:** in every reachable state of every interleaving the buffers written and dropped are those of whole batches, each of at most 25 all written, or larger, the first two written, the rest dropped and one notice given, and the part of the present one that is done |
| `AsyncBatches.NoticesCost` | ycnt/base/AsyncLogging.cpp:131-141 | in every reachable state each notice stands for at least 24 buffers dropped, and with no notice nothing is dropped |
| `AsyncObjects.CallsAreRuns` | ycnt/base/AsyncLogging.cpp:82-154 | **Main:** any sequence of appends and writer turns on a new logger leaves the buffers of a reachable state of the transition system |
| `AsyncObjects.LoggerReachable` | ycnt/base/AsyncLogging.cpp:82-154 | so the buffers of every logger object satisfy the invariant |
| `AsyncObjects.Logger.constructor` | ycnt/base/AsyncLogging.cpp:50-72 | the object starts as the transition system does |
| `AsyncObjects.Logger.PopBuffer` | ycnt/base/AsyncLogging.cpp:29-37 | a pooled buffer or a new one |
| `AsyncObjects.Logger.Append` | ycnt/base/AsyncLogging.cpp:82-101 | the object's append leaves the buffers that run leaves, and the object is still what its calls so far make it |
| `AsyncObjects.Logger.Sweep` | ycnt/base/AsyncLogging.cpp:119-126 | the sweep loop |
| `AsyncObjects.Logger.DropOverload` | ycnt/base/AsyncLogging.cpp:131-141 | the overload rule, whose effect is `AsyncBatches.PassWrites` |
| `AsyncObjects.Logger.WriteBatch` | ycnt/base/AsyncLogging.cpp:142-145 | the write loop |
| `AsyncObjects.Logger.RecycleBatch` | ycnt/base/AsyncLogging.cpp:146-150 | the recycling loop |
| `AsyncObjects.Logger.Settle` | ycnt/base/AsyncLogging.cpp:127-151 | from the swap to the flush |
| `AsyncObjects.Logger.Pass` | ycnt/base/AsyncLogging.cpp:110-152 | the object's turn of the writer loop leaves the buffers that run leaves, and the object is still what its calls so far make it |
| `Registration.MaskedMeans` | ycnt/net/Channel.cpp:147-175 | each call turns its own interest on or off and leaves every other bit of the mask as it is |
| `Registration.AssertsHoldIffLegal` | ycnt/net/poller/EpollPoller.cpp:61-116 | **Main:** in any agreeing state all asserts along a call hold if and only if the call is legal: enable on a free or own descriptor, disable with interest, remove without |
| `Registration.ChangeIs` | ycnt/net/poller/EpollPoller.cpp:61-99 | whatever the flag, a legal change of interest ends in the state its mask calls for, and each epoll_ctl it makes succeeds |
| `Registration.RemovalIs` | ycnt/net/poller/EpollPoller.cpp:101-116 | a legal removal makes no epoll_ctl: the branch for kAdded is never taken |
| `Registration.StepAgrees` | ycnt/net/poller/EpollPoller.cpp:61-116 | every legal step keeps flags, masks, map and kernel set in agreement |
| `Registration.RunAgrees` | ycnt/net/poller/EpollPoller.cpp:61-116 | **Main:** three-way agreement after every run of any length on any number of channels, with no failed epoll_ctl |
| `Registration.RunWithin` | ycnt/net/Channel.cpp:147-175 | in every run the mask of each channel is within the read and write bits |
| `Registration.InterestUndone` | ycnt/net/Channel.cpp:147-169 | a channel without interest that starts reading or writing is in the kernel with mask 3 or 4; when it stops it has none, is marked deleted, gone from the kernel and may be removed |
| `Registration.LookupsHold` | ycnt/net/poller/EpollPoller.cpp:44-46 | for every descriptor the kernel can report, both lookups poll asserts hold, and its mask is the channel's |
| `Registration.HasChannelMeans` | ycnt/net/poller/EpollPoller.cpp:118-122 | hasChannel says yes for a channel that is registered, and for one that is not exactly when another has its descriptor |
| `Registration.HasChannelMisleads` | ycnt/net/poller/EpollPoller.cpp:118-122 | two channels with one descriptor, one of them registered: hasChannel says yes for the other |
| `EpollPollers.Channel.constructor` | ycnt/net/Channel.cpp:20-30 | a new channel is of no interest to anyone |
| `EpollPollers.Channel.EnableReading` | ycnt/net/Channel.cpp:147-151 | the legal object call sets the read bits, marks the channel as added and leaves exactly the registration that step leaves; the three views agree after it |
| `EpollPollers.Channel.DisableReading` | ycnt/net/Channel.cpp:153-157 | the legal object call clears the read bits, hands the mask over and leaves exactly the registration that step leaves, in agreement |
| `EpollPollers.Channel.EnableWriting` | ycnt/net/Channel.cpp:159-163 | the legal object call sets the write bit, hands the mask over and leaves exactly the registration that step leaves, in agreement |
| `EpollPollers.Channel.DisableWriting` | ycnt/net/Channel.cpp:165-169 | the legal object call clears the write bit, hands the mask over and leaves exactly the registration that step leaves, in agreement |
| `EpollPollers.Channel.DisableAll` | ycnt/net/Channel.cpp:171-175 | the legal object call clears the whole mask, hands the mask over and leaves exactly the registration that step leaves, in agreement |
| `EpollPollers.Channel.Update` | ycnt/net/Channel.cpp:86-90 | marks the channel as added and has the poller act on its flag and mask |
| `EpollPollers.Channel.Remove` | ycnt/net/Channel.cpp:187-192 | a legal removal unmarks the channel and leaves it out of map and kernel, in agreement |
| `EpollPollers.Channel.Destroy` | ycnt/net/Channel.cpp:32-36 | a channel that is not registered may be destroyed, and no view refers to it |
| `EpollPollers.EpollPoller.UpdateInEpoll` | ycnt/net/poller/EpollPoller.cpp:124-134 | one epoll_ctl, which fails on a present or absent descriptor |
| `EpollPollers.EpollPoller.UpdateChannel` | ycnt/net/poller/EpollPoller.cpp:61-99 | the three branches, with the asserts of the source as proved assertions |
| `EpollPollers.EpollPoller.RemoveChannel` | ycnt/net/poller/EpollPoller.cpp:101-116 | the removal, with its asserts |
| `EpollPollers.EpollPoller.HasChannel` | ycnt/net/poller/EpollPoller.cpp:118-122 | says yes exactly when some live channel with that descriptor is registered |
| `EpollPollers.EpollPoller.ReportedAreKnown` | ycnt/net/poller/EpollPoller.cpp:44-46 | the map holds every channel epoll_wait hands back, under its descriptor |
| `EpollPollers.EpollPoller.Poll` | ycnt/net/poller/EpollPoller.cpp:35-59 | **Main:** both lookup asserts hold, the ready channels are appended in order with their events, and the array doubles exactly when it came back full |

## Left out

- Grisu.Grisu2: the digits are the shortest of the tightened interval, which is what Grisu2 searches; `Shortness.ShortestUnlessHidden` says when they are so of the full rounding interval.
- DigitGeneration.FractionalDigits: does not claim nearness when the index passes the end of the table, because the multiplier is then whatever is read there.
- Dtoa.DtoaMilo: covers finite doubles; NaN and infinities are excluded by the asserts of the source, and either zero is printed without a sign.
- Dtoa.WriteExponent: the 200 characters of the digit table are given by the rule they follow instead of being listed.
- Dtoa.KeptTextReads: goes one way for what reads back; of a negative double that is not whole the prefix lacks the last digit, and whether that still reads back hangs on a shorter decimal hidden between the ends, as in `Shortness`; `Dtoa.KeptOfLargePower` is a prefix that does not.
- LogFiles.LogFile.Append: `fwrite` takes any number of bytes, on a working stream at least one of a nonempty offer; file names beyond their creation second are not modelled, and a clock that reads zero at the first roll, which leaves the source without a file to append to, is excluded.
- AsyncRuns.RunKeeps: locks are taken and released in the steps of the model; condition variables may wake at any time, the latch and thread start are not modelled, and `stop` is the clearing of the flag.
- AsyncFiles.FilesHoldWholeLines: is about writes that succeed; partial writes are in LogFiles.RunKeeps.
- AsyncObjects.Logger.Append: runs without interference; interleavings are in the transition system, where buffers are values with an identity instead of heap objects.
- AsyncObjects.Logger.Pass: runs without interference, and the wait for a full buffer or the interval is no step of the object.
- AsyncStop.CoveredSettles: with appenders still at work it says what is surely settled, not exactly what is: an appender that fills a bucket may yet publish it in time.
- EpollPollers.EpollPoller.Poll: the kernel reports each registered channel at most once; a failing `epoll_wait` is a report of nothing.
- Blocking `pop`, `BoundedBlockingQueue` and `ThreadPool`: scheduling whose safety properties would be easy members.
- `EventLoop` and `EventLoopThreadPool`: their loop is unfinished in the source.
- Callbacks of `Channel`, ties to owners and the dispatch of returned events.
- `Socket`, `Acceptor`, `Connector`, `InetAddress`, `Thread`, `Timestamp`, the `Logger` front end and its levels: wrappers of system calls, or formatting.
