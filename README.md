# Hornbill password generator, modelled in Dafny

This project models the password-synthesis routine of the Hornbill Go password
generator. That routine is the method `GenPassword` on a password profile, together
with its helper `getRune` and the `Int63` bit mask of its cryptographic random source.

`GenPassword` does five things in order:

1. It rejects a profile whose forced minimums add up to more than its length.
2. It builds a fill alphabet from the enabled classes: lower case, upper case, digits and specials.
3. It draws each class's forced minimum from that class's alphabet, whether or not the class is enabled.
4. It tops the list up to the requested length from the fill alphabet. When no class is enabled, the fill alphabet is all four classes.
5. It emits the collected characters in shuffled order.

Every random choice is an input to the model:

- `getRune` becomes `Selection.GetRune`, which takes the position `Intn` would have drawn.
- Each drawing loop reads its positions from one field of a `Draws` record.
- The shuffle is a permutation `perm` of the positions `[0, n)`, the value `rand.Perm` would have returned.

The routine keeps its imperative form:

- `PasswordGen.AppendRunes` models one counted `for` loop that appends drawn characters.
- `PasswordGen.CollectChars` models the string `allChars`, built with `+=` under the flag checks, and the five drawing loops.
- `PasswordGen.EmitPermuted` models the loop that concatenates the characters in permuted order.

Each method is proved against a specification function (`Collected`, `Pick`). The routine's promises are lemmas about those functions.

Go's `int` is 32 or 64 bits wide depending on the platform. The model takes the 64-bit case: `int` becomes the newtype `PasswordGen.int64`. The validation adds the four minimums with Go's wrapping addition (`PasswordGen.Add64`).

The modules are:

- `Alphabets`: the four character-set constants, built as ASCII ranges and proved equal to the source's string literals.
- `Selection`: picking characters by position, permutations of positions, and class counts.
- `CryptoSource`: `Int63`.
- `PasswordGen`: the profile, the validation, the collection of characters, and `GenPassword`.

## Model

| member | source | states |
|---|---|---|
| Alphabets.AlphabetLiterals | main.go:28-33 | The four class alphabets are exactly the source's constants `lcs`, `ucs`, `num` and `spc`. |
| Alphabets.LowerIsRange | main.go:29 | A character is lower case exactly when it lies in 'a'..'z'. |
| Alphabets.UpperIsRange | main.go:30 | A character is upper case exactly when it lies in 'A'..'Z'. |
| Alphabets.NumericIsRange | main.go:31 | A character is a digit exactly when it lies in '0'..'9'. |
| Alphabets.SpecialIsRanges | main.go:32 | A character is special exactly when it lies in one of the four ASCII punctuation ranges. |
| Alphabets.ClassSizes | main.go:29-32 | The classes have 26, 26, 10 and 32 characters, 94 together. |
| Alphabets.AllAscii | main.go:95 | Every character of the union of the classes is ASCII, so a rune count equals a string length. |
| Alphabets.ClassesDisjoint | main.go:29-32 | No character belongs to two classes. |
| CryptoSource.Int63 | main.go:117-119 | The result is below 2^63 (non-negative as an int64) and agrees with the 64-bit word on every bit except bit 63. |
| Selection.GetRune | main.go:129-136 | The result is a one-character string holding the character at the chosen position, so a character of the source string. |
| Selection.Pick | main.go:98-101 | A drawing loop or the permuted emit yields one character per drawn position. |
| Selection.PickAt | main.go:98-101 | The k-th picked character is the character at the k-th drawn position. |
| Selection.PickFrom | main.go:133-135 | Every picked character is a character of the alphabet it was picked from. |
| Selection.PermutationUsesEachPositionOnce | main.go:107 | A permutation of [0, n) has n in-range entries and uses each position exactly once. |
| Selection.PickPermuted | main.go:107-108 | Picking the same positions in another order yields the same multiset of characters. |
| Selection.PickPositions | main.go:107-108 | Picking positions 0..n-1 in order yields the first n characters. |
| Selection.ShuffleKeepsCharacters | main.go:104-109 | Emitting a sequence in permuted order keeps its length and its multiset of characters. |
| Selection.CountInPick | main.go:60-63 | Every character drawn from an alphabet counts as a character of that alphabet. |
| Selection.CountInAppend | main.go:62 | A class count of a concatenation is the sum of the class counts of its parts. |
| Selection.CountInWithout | main.go:107-108 | Removing one position lowers a class count by exactly that position's contribution. |
| Selection.CountInPermuted | main.go:104-109 | A class count depends only on the multiset of characters. |
| PasswordGen.Add64 | main.go:52 | Go's 64-bit addition: the exact sum when it fits, otherwise the exact sum shifted by 2^64. |
| PasswordGen.ForcedSum | main.go:52 | The validation's sum of the four minimums equals the mathematical sum whenever that fits in 64 bits. |
| PasswordGen.Count | main.go:60 | A loop `for i := 0; i < n; i++` runs n times when n is non-negative and never when n is negative. |
| PasswordGen.Rejects | main.go:52 | The validation fails a profile exactly when the sum of its minimums exceeds its length, whenever that sum fits in 64 bits. |
| PasswordGen.ForcedCount | main.go:60-90 | The forced loops draw at least the sum of the minimums, and exactly that sum when no minimum is negative. |
| PasswordGen.FillCount | main.go:93-97 | The fill draws `moreCharsLen` characters: either it tops the forced characters up to exactly the length, or draws none because the forced characters already reach it. |
| PasswordGen.CollectedCount | main.go:60-102 | The number of collected characters is the length when the forced draws fall short of it, and the forced count otherwise. |
| PasswordGen.FillAlphabet | main.go:56-90 | The fill alphabet is empty exactly when no class is enabled. |
| PasswordGen.FillAlphabetMembers | main.go:57-86 | A character is in the fill alphabet exactly when its class is enabled. |
| PasswordGen.FillPool | main.go:93-96 | The alphabet the fill draws from is non-empty. It is the fill alphabet when a class is enabled and the union of the four classes otherwise. |
| PasswordGen.FillPoolFallback | main.go:94-96 | The fill pool is non-empty; a character is in it exactly when it is in the fill alphabet, or no class is enabled and it is in the union. |
| PasswordGen.Collected | main.go:56-102 | The collected characters number `CollectedCount`. |
| PasswordGen.AppendRunes | main.go:60-63 | One counted drawing loop appends exactly the characters at the drawn positions, in draw order. |
| PasswordGen.CollectChars | main.go:56-102 | The drawing phase yields the forced draws of lower, upper, numeric and special in that order, then the fill draws from the fill pool. |
| PasswordGen.EmitPermuted | main.go:104-109 | The emitted password is the collected characters taken in the order the permutation lists their positions. |
| PasswordGen.GenPassword | main.go:47-112 | It fails exactly when the wrapped forced sum exceeds the length, which is exactly when the true sum does whenever that fits in 64 bits. On failure the password is empty. On success it is the shuffled collection. It has exactly the requested length when the minimums are non-negative and their sum fits in 64 bits. |
| PasswordGen.PasswordLength | main.go:92-109 | An accepted profile yields max(length, forced count) characters, and exactly `length` when the minimums are non-negative and their sum fits in 64 bits. |
| PasswordGen.Password | main.go:104-111 | The password returned on success has one character per collected character. |
| PasswordGen.ShuffleKeepsCollected | main.go:104-109 | The password is a rearrangement of the collected characters. |
| PasswordGen.CollectedCountIn | main.go:56-102 | A class count of the collected characters is the sum of the counts contributed by the five drawing loops. |
| PasswordGen.ShuffleKeepsCounts | main.go:104-109 | The shuffle keeps every class count. |
| PasswordGen.ForcedMinimums | main.go:60-90 | The password holds at least `ForceX` characters of every class X, whether or not X is enabled. |
| PasswordGen.CollectedFrom | main.go:56-102 | A collected character is a forced draw of a class with a positive minimum or a character of the fill pool (per character; the count statement is `PasswordGen.DisabledClassOnlyForced`). |
| PasswordGen.PasswordAlphabet | main.go:56-109 | Every password character is a forced draw of a class with a positive minimum or a character of the fill pool, and it is always an ASCII character of the union of the classes. |
| Selection.CountInSeparate | main.go:98-101 | Draws from an alphabet that shares no character with a class contribute nothing to that class's count. |
| Alphabets.ClassesSeparate | main.go:29-32 | Every two distinct classes are separate, in both directions. |
| PasswordGen.FillPoolSeparate | main.go:57-96 | When some class is enabled, the fill pool holds no character of a disabled class. |
| PasswordGen.DisabledCount | main.go:92-109 | A class the fill pool avoids is counted, in the password, only among the four forced runs. |
| PasswordGen.DisabledClassOnlyForced | main.go:56-109 | When some class is enabled, every disabled class occurs in the password exactly as many times as its forced loop ran: the fill draws only from enabled classes. |
| PasswordGen.LowerOnlyForced | main.go:56-63 | With some class enabled and lower case disabled, the password holds exactly `Count(ForceLower)` lower-case letters. |
| PasswordGen.UpperOnlyForced | main.go:65-72 | With some class enabled and upper case disabled, the password holds exactly `Count(ForceUpper)` upper-case letters. |
| PasswordGen.NumericOnlyForced | main.go:74-81 | With some class enabled and digits disabled, the password holds exactly `Count(ForceNumeric)` digits. |
| PasswordGen.SpecialOnlyForced | main.go:83-90 | With some class enabled and specials disabled, the password holds exactly `Count(ForceSpecial)` special characters. |
| PasswordGen.UnusedClassAbsent | main.go:57-101 | When some class is enabled, a class that is neither enabled nor forced never appears in the password. |
| PasswordGen.DemoProfileAccepted | examples/main.go:14-22 | The demonstration profile passes validation: 8 forced characters and 2 fill characters. |
| PasswordGen.DemoPassword | examples/main.go:14-25 | The demonstration profile yields 10 characters with at least two of each class, special characters included even though that class is disabled. |
| PasswordGen.OverfullProfileRejected | main.go:52-54 | Minimums of 3 lower and 3 upper for a length of 5 are rejected. |
| PasswordGen.NegativeMinimumOverfills | main.go:52-63 | A negative minimum passes validation but draws nothing, so the password can be longer than the length. |
| PasswordGen.OverflowingMinimumsAccepted | main.go:52-54 | Minimums whose sum overflows 64 bits wrap to a negative sum and pass validation. |

## Behaviour at the edges

The code as written promises an exact length only when the minimums behave. `PasswordGen.GenPassword` and `PasswordGen.PasswordLength` state this precisely:

- **Negative minimums.** A negative `ForceX` counts toward the validation sum, but its loop draws nothing. The other minimums can then add up to more than `Length`. No fill is drawn in that case, so the password is longer than requested (`PasswordGen.NegativeMinimumOverfills`).
- **Overflow.** The validation sum wraps at 64 bits. Huge minimums can therefore pass validation, after which the collection needs far more characters than `Length` (`PasswordGen.OverflowingMinimumsAccepted`).

The field `Length` is documented as the password length (`//Password Length`, examples/main.go:14). For the profiles above, the code returns a password of another length, or none at all (see the 64-bit and memory lines under "## Left out"). The model follows the code.

## Left out

- `cryptoSource.Uint64` (main.go:121-127) reads eight bytes of operating-system entropy and panics when the read fails. This is I/O; `CryptoSource.Int63` takes the 64-bit word as a parameter instead.
- `cryptoSource.Seed` (main.go:115) does nothing, so it has no model.
- `math/rand`'s `Intn` and `Perm` are library code outside this package. They are replaced by their results: an in-range position per draw (`Draws`, checked by `DrawsFit`) and a permutation of the positions (`IsPermutation`).
- How the library turns `Int63` words into positions and permutations is out of scope too, so the model does not connect `CryptoSource.Int63` to the draws.
- The model assumes a 64-bit `int`. On a 32-bit platform the sum at main.go:52 wraps at 2^32, so profiles the model rejects (four minimums of 2^30 with length 0) pass validation there.
- The model assumes unbounded memory. For an accepted profile whose collection is enormous, such as `PasswordGen.OverflowingMinimumsAccepted` with 2^63 characters, the modelled success stands for a run that cannot finish: `append` at main.go:62 exhausts memory first.
- Uniformity and unpredictability of the draws are statistical properties; the model does not state them.
- `NewPasswordInstance` and the package-level `Profile` variable (main.go:35-44) are left out. The first returns a zero-valued profile and the second is never read by `GenPassword`. The profile is a value, the datatype `PasswordGen.Profile` with the nine fields of `PasswordProfileStruct` (main.go:14-24), because `GenPassword` never changes it.
- The error value is the single variant `ForcedSumExceedsLength`; the message text of `errors.New` is not modelled.
- `getRune` converts the alphabet to runes. The model indexes characters directly, which agrees because every alphabet is ASCII (`Alphabets.AllAscii`).
- The demonstration program's console output (examples/main.go:26-30) is left out; only its profile is modelled.
- Blacklists, forbidden substrings with regeneration, and debug tracing do not occur in this version of the code.
