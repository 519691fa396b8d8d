# privacypuzzle core, modelled in Dafny

privacypuzzle hides a short message in a nonogram picture. It encrypts the message with a password into a self-describing blob. It generates a random nonogram grid and its row and column hints. It renders the puzzle to an image, and a steganography codec hides the blob in the image's pixels.

This project models two of these pieces and proves properties about them:

- **Nonogram generation and layout** (`lib/puzzleGenerator.js`).
  - `line_runs.dfy` (module `LineRuns`) specifies the hint of one line by a function `Runs`, and describes the counting loop's state after each cell. Lemmas show that `Runs` gives the maximal runs in order: `RunsOfPlace` and `PlaceOfRuns` prove that runs plus gaps determine a line and are determined by it.
  - `puzzle_generator.dfy` (module `PuzzleGenerator`) covers the 5..50 dimension check and the run-length hints of every row and column. The hint loops are methods with loop invariants, proved against `Runs`.
  - `puzzle_render.dfy` (module `PuzzleRender`) covers the layout arithmetic of `renderNonogramPuzzle` and the coordinate loops of `generateGridLines`, `generateRowHints` and `generateColHints`. The loops are methods proved against specification functions. Lemmas show that both end points of every grid line lie on the canvas, and that the centre of every hint number lies inside its margin, in order. The bound at the canvas edge is attained: the first number of a longest hint list is centred on x = 0 (rows) or y = 0 (columns).
- **Ciphertext blob framing** (`lib/encryption.js`).
  - `encryption.dfy` (module `Encryption`) models `deriveKey`, `encrypt` and `decrypt`. The blob layout is `salt(16) ++ iv(12) ++ tag(16) ++ ciphertext`. `decrypt` rejects blobs shorter than 44 bytes and slices at offsets 16, 28 and 44.
  - PBKDF2-HMAC-SHA256 (section 5.2 of RFC 8018) and AES-256-GCM (NIST SP 800-38D, section 7, with a 96-bit IV and a 128-bit tag) are not modelled. They are function values in a `Primitives` record.
  - The properties these standards give the primitives are ghost predicates, assumed by the lemmas that need them. `OpenInvertsSeal` says decryption undoes encryption. `OpenAuthenticates` says a tag verifies only for the ciphertext it was computed for. `SealKeepsLength` says GCM ciphertext is as long as its plaintext. `KdfHonoursLength` says PBKDF2 returns as many bytes as asked for.
- `wrappers.dfy` (module `Wrappers`) holds the `Option` and `Result` types. The source's thrown errors become `Failure` values: `InvalidDimensions`, `MalformedInput` and `AuthenticationFailure`.

Inputs that the source draws at random are parameters here:

- the grid fill (`Math.random() < fillProbability`) is a function `fill(y, x)`;
- the salt and IV from `crypto.randomBytes` are parameters whose lengths are fixed by their types.

Coordinates are exact reals, and the factor 0.7 is the exact rational 7/10.

## Model

| member | source | states |
|---|---|---|
| `LineRuns.LeadingRun` | lib/puzzleGenerator.js:15-17 | the run counted from the start of a line is all filled and ends at an empty cell or at the end of the line |
| `LineRuns.Runs` | lib/puzzleGenerator.js:15-19 | every run length pushed is positive |
| `LineRuns.LineHints` | lib/puzzleGenerator.js:12-20 | a hint list is never empty; it is `[0]` exactly when the line has no filled cell; otherwise all entries are positive; the hints sum to the filled-cell count; (sum of hints) + (number of hints - 1) <= line length |
| `PuzzleGenerator.Column` | lib/puzzleGenerator.js:27-28 | column x holds `grid[y][x]` for every y, top to bottom, one cell per row |
| `PuzzleGenerator.FillGrid` | lib/puzzleGenerator.js:8-10 | the grid has `height` rows of `width` cells, and cell (y, x) is the fill drawn for it |
| `LineRuns.RunsEmptyIff` | lib/puzzleGenerator.js:17-20 | a line yields no runs if and only if it has no filled cell, which is when the source falls back to `[0]` |
| `LineRuns.RunsSum` | lib/puzzleGenerator.js:15-19 | the runs add up to the number of filled cells |
| `LineRuns.RunsFit` | lib/puzzleGenerator.js:15-19 | runs separated by at least one empty cell fit the line: sum + count - 1 <= length |
| `LineRuns.Gaps` | lib/puzzleGenerator.js:15-19 | the empty stretches of a line around its runs: one more than the runs, and every inner one non-empty |
| `LineRuns.RunsOfPlace` | lib/puzzleGenerator.js:15-19 | laying out positive runs with non-empty inner gaps and scanning the line gives the same runs back, so the hints are the maximal runs in left-to-right order |
| `LineRuns.PlaceOfRuns` | lib/puzzleGenerator.js:15-19 | every line is its runs laid out with its gaps, so runs and gaps determine the line |
| `LineRuns.ScanBlank` | lib/puzzleGenerator.js:17 | an empty cell pushes the pending count, if positive, and resets it; the loop state stays consistent with the runs of the line |
| `LineRuns.ScanStep` | lib/puzzleGenerator.js:15-18 | one iteration of the counting loop, filled or empty cell, keeps the loop state consistent with the runs of the line |
| `LineRuns.ScanDone` | lib/puzzleGenerator.js:19-20 | after the last cell, pushing a positive pending count and replacing an empty list by `[0]` gives exactly the hints of the line |
| `PuzzleGenerator.RowHints` | lib/puzzleGenerator.js:13-20 | the counting loop over one row returns exactly the hint list of that row |
| `PuzzleGenerator.ColumnHints` | lib/puzzleGenerator.js:25-32 | the counting loop reading `grid[y][x]` returns exactly the row-hint computation applied to column x |
| `PuzzleGenerator.AllRowHints` | lib/puzzleGenerator.js:12-21 | one hint list per row, in row order, each the hints of that row |
| `PuzzleGenerator.AllColumnHints` | lib/puzzleGenerator.js:23-33 | one hint list per column, in column order, each the hints of that column |
| `PuzzleGenerator.GenerateNonogram` | lib/puzzleGenerator.js:3-36 | fails with InvalidDimensions exactly when width or height is outside 5..50; otherwise returns the grid with height row-hint lists and width column-hint lists, each the hints of its line |
| `PuzzleGenerator.CountSnoc` | lib/puzzleGenerator.js:16 | one more cell at the end of a line adds one to the filled count when it is filled |
| `PuzzleGenerator.RowHintTotal` | lib/puzzleGenerator.js:12-21 | row hint lists that each add up to their row's filled cells add up to the filled cells of the grid |
| `PuzzleGenerator.RowsTotalIsColumnsTotal` | lib/puzzleGenerator.js:12-33 | counting filled cells row by row or column by column gives the same total |
| `PuzzleGenerator.HintTotalsAgree` | lib/puzzleGenerator.js:12-35 | in every generated puzzle the row hints and the column hints add up to the same total, the number of filled cells |
| `LineRuns.ExampleTwoRuns` | lib/puzzleGenerator.js:15-20 | the row 1,1,0,1,1,1,0,0 has the hints [2, 3] |
| `LineRuns.ExampleEmptyRow` | lib/puzzleGenerator.js:20 | an empty row of length 6 has the hints [0] |
| `PuzzleRender.Ceil` | lib/puzzleGenerator.js:50-51 | `Math.ceil`: the smallest whole number not below its argument |
| `PuzzleRender.MaxHintLength` | lib/puzzleGenerator.js:44-45 | the longest hint-list length, floored at 1: at least 1, no list is longer, and it is attained unless it is the floor |
| `PuzzleRender.ComputeLayout` | lib/puzzleGenerator.js:41-51 | grid size from the hint-list counts; margins are 0.7 * cellSize per hint of the longest list, and wide enough for every list; canvas size = ceil(margin + cells * cellSize) on each axis |
| `PuzzleRender.HintSpan` | lib/puzzleGenerator.js:47-48 | the room of n hint numbers (also the offsets at lines 83 and 95) is exactly seven tenths of n cells, and never negative for n, cellSize >= 0 |
| `PuzzleRender.SpanMonotone` | lib/puzzleGenerator.js:47-48 | more hints take more room when cellSize >= 0, strictly more when cellSize > 0 |
| `PuzzleRender.VerticalLine` | lib/puzzleGenerator.js:68-69 | a vertical grid line is vertical and spans exactly the grid height |
| `PuzzleRender.HorizontalLine` | lib/puzzleGenerator.js:72-73 | a horizontal grid line is horizontal and spans exactly the grid width |
| `PuzzleRender.GridLines` | lib/puzzleGenerator.js:65-76 | width + 1 vertical lines, the i-th at leftOffset + i * cellSize, then height + 1 horizontal lines, the i-th at topOffset + i * cellSize |
| `PuzzleRender.VerticalLinesOnCanvas` | lib/puzzleGenerator.js:67-70 | for cellSize >= 0, both end points of every vertical grid line lie on the canvas |
| `PuzzleRender.HorizontalLinesOnCanvas` | lib/puzzleGenerator.js:71-74 | for cellSize >= 0, both end points of every horizontal grid line lie on the canvas |
| `PuzzleRender.RowLabel` | lib/puzzleGenerator.js:81-84 | a row hint is drawn with the value of that hint |
| `PuzzleRender.ColumnLabel` | lib/puzzleGenerator.js:93-96 | a column hint is drawn with the value of that hint |
| `PuzzleRender.RowLabelsOf` | lib/puzzleGenerator.js:82-85 | one label per number of the row |
| `PuzzleRender.ColumnLabelsOf` | lib/puzzleGenerator.js:94-97 | one label per number of the column |
| `PuzzleRender.RowLabels` | lib/puzzleGenerator.js:80-86 | one label per hint number over all rows |
| `PuzzleRender.ColumnLabels` | lib/puzzleGenerator.js:92-98 | one label per hint number over all columns |
| `PuzzleRender.RowHintLabels` | lib/puzzleGenerator.js:78-88 | the nested loops emit exactly the row labels, row by row and left to right |
| `PuzzleRender.ColumnHintLabels` | lib/puzzleGenerator.js:90-100 | the nested loops emit exactly the column labels, column by column and top to bottom |
| `PuzzleRender.RowLabelOrder` | lib/puzzleGenerator.js:83 | for cellSize > 0, row hint x positions strictly increase with j; a row's hints share its centre line; the last hint sits one hint width left of the grid |
| `PuzzleRender.ColumnLabelOrder` | lib/puzzleGenerator.js:95 | for cellSize > 0, column hint y positions strictly increase with j; a column's hints share its centre line; the last hint sits one hint height above the grid |
| `PuzzleRender.RowLabelInMargin` | lib/puzzleGenerator.js:81-83 | the centre of a row hint with room in the margin lies at or right of x = 0, left of the grid, and within the rows' height |
| `PuzzleRender.ColumnLabelInMargin` | lib/puzzleGenerator.js:93-95 | the centre of a column hint with room in the margin lies at or below y = 0, above the grid, and within the columns' width |
| `PuzzleRender.RowLabelsInMargin` | lib/puzzleGenerator.js:78-88 | every row label's centre lies in the left margin when cellSize > 0 |
| `PuzzleRender.ColumnLabelsInMargin` | lib/puzzleGenerator.js:90-100 | every column label's centre lies in the top margin when cellSize > 0 |
| `PuzzleRender.RowLabelDrawn` | lib/puzzleGenerator.js:80-86 | number j of row i is among the drawn row labels |
| `PuzzleRender.ColumnLabelDrawn` | lib/puzzleGenerator.js:92-98 | number j of column i is among the drawn column labels |
| `PuzzleRender.RowLabelsReachEdge` | lib/puzzleGenerator.js:83 | once some row has a hint, a drawn row label is centred exactly on x = 0, so the margin bound is tight |
| `PuzzleRender.ColumnLabelsReachEdge` | lib/puzzleGenerator.js:95 | once some column has a hint, a drawn column label is centred exactly on y = 0, so the margin bound is tight |
| `PuzzleRender.RenderNonogramPuzzle` | lib/puzzleGenerator.js:38-63 | canvas size from the layout; (width+1)+(height+1) grid lines at the layout's offsets, as generateGridLines places them, with both end points on the canvas when cellSize >= 0; one label per hint number; row and column label centres inside their margins when cellSize > 0 |
| `Encryption.Frame` | lib/encryption.js:27 | the blob is 44 bytes longer than the ciphertext and starts with salt, iv and tag |
| `Encryption.Unframe` | lib/encryption.js:31-38 | fails exactly on blobs shorter than 44 bytes; otherwise the four slices concatenate back to the blob, and the ciphertext is the blob minus 44 bytes |
| `Encryption.UnframeFrame` | lib/encryption.js:27-38 | slicing at 16, 28 and 44 recovers exactly the salt, iv, tag and ciphertext that were concatenated |
| `Encryption.HeaderOnlyBlob` | lib/encryption.js:31-38 | a 44-byte blob passes the length check with an empty ciphertext |
| `Encryption.DeriveKey` | lib/encryption.js:10-12 | the key is PBKDF2 over (password, salt) alone, with 100000 iterations, a 32-byte output and SHA-256; it is 32 bytes long when PBKDF2 returns the length asked for |
| `Encryption.Encrypt` | lib/encryption.js:14-28 | the blob frames the given salt and iv with the tag and ciphertext of sealing the message under the key derived from (password, salt) |
| `Encryption.Decrypt` | lib/encryption.js:30-51 | fails with MalformedInput exactly when the blob is shorter than 44 bytes; any other failure is AuthenticationFailure |
| `Encryption.EncryptLength` | lib/encryption.js:15-27 | the blob length is 44 + the message length |
| `Encryption.DecryptRederivesKey` | lib/encryption.js:17-40 | decrypt reads back the salt and iv that encrypt stored, so it re-derives the same key |
| `Encryption.DecryptEncrypt` | lib/encryption.js:14-51 | round trip: under the AEAD inversion property, decrypting with the same password returns the message |
| `Encryption.DecryptAuthentic` | lib/encryption.js:35-50 | under the AEAD authenticity property, a blob that decrypts is exactly what encrypt makes of that plaintext, password, stored salt and stored iv |
| `Encryption.DecryptRejectsForgery` | lib/encryption.js:43-48 | when no plaintext seals to the blob's tag and ciphertext under the re-derived key (wrong password, altered tag or ciphertext), decrypt fails with AuthenticationFailure and returns no plaintext |
| `Encryption.DistinctNoncesDistinctBlobs` | lib/encryption.js:15-27 | encryptions with different salts or different ivs never produce the same blob |

## Left out

- The steganography codec (`lib/steganography`) is not part of this model, so the embed/extract round trip and capacity checks are not covered. The education module and the CLI in `index.js` are not part of this model either: argument parsing, prompts, spinners, banners, file I/O, the output directory and the CLI's own 5..30 size check.
- `Math.random()` and `fillProbability`: the grid fill is the parameter `fill`, so nothing is said about the fill distribution.
- Rasterisation by `sharp`, the SVG markup, the background fill, colours and font size: the model has the canvas size and the coordinates of lines and labels, not pixels or text.
- The extent of the drawn text: labels are centred on their coordinates (`text-anchor` and `dominant-baseline` are `middle`), and only the centres are modelled. The first number of a longest row is centred on x = 0, and that of a longest column on y = 0 (`RowLabelsReachEdge`, `ColumnLabelsReachEdge`), so half of that number is drawn outside the canvas.
- JavaScript floating point: `0.7`, `cellSize / 2` and `Math.ceil` are exact real arithmetic here. For a positive `cellSize` the float product `n * cellSize * 0.7` does not round above seven tenths of `n * cellSize` when that is whole, so `Math.ceil` gives the model's canvas size; a difference could arise only for a negative `cellSize`, where the rounding goes the other way.
- `cellSize` is never checked by the source. The layout functions accept any integer, but the on-canvas and in-margin properties are proved only for `cellSize >= 0` (lines) or `cellSize > 0` (labels).
- JavaScript numbers that are not integers (fractions, `NaN`) are not modelled: width, height and `cellSize` are integers here, although the source accepts any number and the CLI can pass `NaN` from `parseInt`. The source's defaults (`cellSize = 40` and an empty `options` object) are not modelled either: `cellSize` is always given, and the colours that `options` sets are not modelled.
- The internals of `crypto.pbkdf2Sync`, `createCipheriv`/`createDecipheriv` and `randomBytes`. Their standard properties are assumptions stated as predicates. The model never proves that a wrong password or a single flipped bit makes authentication fail: that holds only with overwhelming probability. `DecryptRejectsForgery` states the consequence under the hypothesis that no plaintext forges the tag.
- Freshness of salt and IV: the model shows that different salts or IVs give different blobs. That independent random draws are different is a probabilistic fact it does not state.
- UTF-8 encoding of the message and decoding of the plaintext (`'utf8'`, `toString('utf8')`): messages and passwords are byte strings, so the replacement of invalid UTF-8 sequences on decoding is not modelled.
- The key's lifetime and zeroing: the key is a value here, with no memory model.
