# html-to-pdfmake, modelled in Dafny

html-to-pdfmake turns an HTML fragment into a pdfmake document definition. It walks the
DOM depth first; every element gets converted children, the CSS cascade of its ancestors
(tag defaults, inline `style`, `html-<tag>` and `class` names), and a tag-specific arm
(TABLE grid with row and column spans, list, rule, line break, script offset, font size,
image). This project models that core, which lives in `index.js`:

- `convertToUnit`, `parseColor` and `toCamelCase` (module `Units`);
- `parseStyle`: the inline-style reader, with its margin shorthand and border merge (`Style`);
- `applyStyle`: the ancestor cascade (`Cascade`);
- `changeDefaultStyles`: the per-conversion default style table, a class edited in place (`Defaults`);
- `setRowSpan` and the TABLE grid (`Table`), and the `tableAutoSize` pass (`Autosize`);
- `parseElement`, `searchForStack`, `convertHtml` and `create` (`Converter`);
- `depure` and the cache bookkeeping of `urltobase64`, a class whose entries change in place (`ImageCache`).

JavaScript values are modelled by `Values.Value`: undefined, null, booleans, numbers (a
real, an infinity or NaN), strings, arrays and objects. Truthiness, `||`, property reads
on `null`/`undefined` (which throw) and `for…in` over such values are modelled explicitly.
The DOM is an abstract tree `Markup.Node`: a text node, a comment, or an element with a
name, attributes, an already parsed `data-pdfmake` and children.

`parseElement` runs inside a `new Promise(async …)` executor. A TypeError thrown there,
or the bare `return ''` of the COL/COLGROUP arm, does not reject that promise: it stays
pending for ever, and so does every `await` above it. The model writes such an outcome as
`None` and lets it propagate to the root. An element whose child hangs therefore hangs
too; it is not converted with that child left out. This follows the executor at `index.js:186` and the
`try` around each child at `index.js:232-239`, which never sees a rejection.

Every method is proved against a specification function. The properties the source
promises are then proved about those functions: the margin shorthand's order, last writer
wins in the border merge, class order in the cascade, fillers for spanned cells, the
widest width per column, exactly which cache entries the sweep deletes, and the shape of
what each arm yields.

## Model

| member | source | states |
|---|---|---|
| `Units.NumberLiteral` | index.js:797-799 | A bare numeral (`12`, `1.5`) converts to its own exact value. |
| `Units.LengthLiteral` | index.js:800-818 | A numeral followed by `pt`, `px`, `rem` or `cm` converts to points: pt as is, px times 0.75292857248934 rounded, rem times 12, cm times 28.34646 rounded. |
| `Units.OtherSuffix` | index.js:797-802 | A numeral followed by any suffix that holds no digit, does not end in white space and is not `pt`, `px`, `rem` or `cm` (`12em`, `12ex`, `50%`, `12PX`) is refused (`false`); the only exclusions are a lone `.` after a whole numeral and an `x` right after the numeral `0`, which JavaScript reads as numbers. |
| `Units.NumeralSuffixNaN` | index.js:799 | `val*1` is NaN on a numeral followed by such a suffix, whatever its first character. |
| `Units.NumeralSuffixNoLength` | index.js:800 | The length pattern does not match a numeral followed by a digit-free suffix that is not a unit. |
| `Units.NumeralToNumber` | index.js:799 | `val*1` on a bare numeral is its value; after a suffix led by a lower-case letter other than `e`, `x`, `o` or `b` and not ending in white space it is NaN, which is why the length pattern is tried (any other digit-free suffix: `Units.NumeralSuffixNaN`). |
| `Units.CapitalizeAfterComplete` | index.js:749-751 | After `toCamelCase` no dash is left that is followed by a lower-case letter. |
| `Units.CapitalizeAfterIdentity` | index.js:749-751 | A string with no dash followed by a lower-case letter comes back unchanged. |
| `Units.ToCamelCaseIdempotent` | index.js:749-751 | Camel-casing twice is the same as camel-casing once. |
| `Units.CapitalizeAfter` | index.js:750 | The result is never longer than the input. |
| `Units.Channel` | index.js:773-780 | Each channel is written as exactly two lower-case hex digits. |
| `Units.ChannelRoundTrip` | index.js:773-780 | The two hex digits read back as the channel clamped to 255. |
| `Units.RgbColor` | index.js:771-782 | `rgb(r,g,b)` becomes `#` and three two-digit channels: 7 characters, each pair the clamped decimal channel. |
| `Units.RgbMatchAccepts` | index.js:764 | The `rgb(` pattern accepts any three digit runs separated by commas, with white space allowed after each comma. |
| `Units.RgbIsNotHex` | index.js:761-771 | An `rgb(...)` colour is never taken for a hex colour. |
| `Units.Transparent` | index.js:783-784 | `transparent` becomes `white`. |
| `Units.ColorUnchanged` | index.js:760-789 | Hex colours, colour names and everything else that is not `rgb(...)` or `transparent` come back unchanged. |
| `Defaults.DefaultStyles.constructor` | index.js:106-126 | A conversion starts from the built-in table of tag defaults. |
| `Defaults.DefaultStyles.Change` | index.js:131-156 | The table after `changeDefaultStyles`, in terms of the override's enumerable tags. |
| `Defaults.DefaultStyles.ChangeOneTag` | index.js:133-150 | One turn of the loop over the override's tags changes that tag only. |
| `Defaults.MergeProps` | index.js:138-142 | The inner loop: an empty string deletes a property, any other value replaces or adds it. |
| `Defaults.ChangedAt` | index.js:132-151 | Adding one tag's override leaves every other tag as it was. |
| `Defaults.ChangeRemoves` | index.js:133-137 | A falsy override removes a tag's defaults; a tag that is not overridden keeps its defaults exactly. |
| `Defaults.ChangeProperty` | index.js:137-143 | For an existing tag with a truthy override: an empty string removes the property, another value sets it, and an unnamed property is kept. |
| `Defaults.ChangeAdds` | index.js:144-150 | A tag without defaults gets exactly the properties given, empty strings included. |
| `Style.ParseStyle` | index.js:615-747 | The rules `parseStyle` returns, as `ParseStyleSpec`. |
| `Style.ScanDefinitions` | index.js:625-707 | The declaration loop yields the rules in declaration order and sets the border declarations aside. |
| `Style.MergeBorders` | index.js:708-745 | The border merge and gap filling yield the `border` and `borderColor` rules. |
| `Style.MergeDeclarations` | index.js:711-737 | Each border declaration writes its side (or all four) of the width and colour arrays. |
| `Style.MergeOne` | index.js:714-736 | One border declaration written onto the two arrays. |
| `Style.SetSide` | index.js:723-727 | One side is set, or all four when the key names no side. |
| `Style.SetAll` | index.js:726 | All four entries are set to the value. |
| `Style.FillGaps` | index.js:738-742 | Once an array has been written, the sides left unset take the default. |
| `Style.MarginOrderParts` | index.js:636-641 | Reordering the margin shorthand uses every part and nothing but the parts. |
| `Style.MarginRefused` | index.js:634-650 | The margin rule is dropped exactly when one of its parts is not a length. |
| `Style.PointsAccepted` | index.js:643-648 | When every part converts, the margin holds their values in points. |
| `Style.MarginOne` | index.js:638 | One value: the same margin on all four sides. |
| `Style.MarginTwo` | index.js:639 | Two values `vertical horizontal` give only `[horizontal, vertical]`, two entries and not four. |
| `Style.MarginThree` | index.js:640 | Three values `top horizontal bottom` give `[horizontal, top, horizontal, bottom]`. |
| `Style.MarginFour` | index.js:641 | Four values `top right bottom left` give pdfmake's `[left, top, right, bottom]`. |
| `Style.MarginOfJoin` | index.js:637 | A margin value written as its space-separated parts is read back part by part. |
| `Style.LastWidth` | index.js:713-727 | The last declaration naming a side (or all sides) decides its width. |
| `Style.NoWidth` | index.js:713-727 | A side that no declaration names keeps no width before the gap filling. |
| `Style.LastColor` | index.js:728-736 | The last declaration with a colour that names a side decides its colour. |
| `Style.NoColor` | index.js:728-736 | A side that no declaration with a colour names keeps no colour before the gap filling. |
| `Style.Written` | index.js:713-744 | A `border` rule appears exactly when there was a border declaration, and a `borderColor` rule exactly when one of them had a colour. |
| `Style.SideRulesShape` | index.js:738-744 | At most a `border` rule and then a `borderColor` rule come out. |
| `Style.BorderRuleSide` | index.js:739-743 | Each side's width in the `border` rule is the last one written for it, or `true` where none was. |
| `Style.BorderColorSide` | index.js:739-744 | Each side's colour in the `borderColor` rule is the last one written for it, or `#000000` where none was. |
| `Style.SideIndex` | index.js:717-721 | A border key names side 0 to 3, or -1 for all four. |
| `Style.SideOfBorder` | index.js:717-721 | `border` names all four sides. |
| `Style.SideOfNamed` | index.js:717-721 | `border-left`, `border-top`, `border-right` and `border-bottom` name sides 0, 1, 2 and 3, the order in which the side tests run. |
| `Style.AllSides` | index.js:723-744 | A declaration naming no side sets all four widths alike. |
| `Style.OneSide` | index.js:723-744 | A declaration naming one side sets that side, and the other three become `true`. |
| `Style.PlainBorder` | index.js:690-691 | `border: <width> …` sets all four sides to whether the width is positive. |
| `Style.ClassifyIgnored` | index.js:633-704 | With `ignoreProperties` set, no declaration is kept as a border declaration, and none emits a margin, width or height rule. |
| `Style.ScanIgnored` | index.js:627-707 | With `ignoreProperties` set, the scan keeps no border declaration. |
| `Style.ParseStyleIgnored` | index.js:615-747 | What an ancestor's style contributes never names a margin, width, height or border key. |
| `Style.GenericKey` | index.js:692-703 | A key that no named case takes is camel-cased and kept with its value. |
| `Style.BorderColorKey` | index.js:688-703 | `border-color` is not a border key: it takes the generic path and comes out as `borderColor`. |
| `Style.CamelCaseAt` | index.js:697 | A dash followed by a lower-case letter becomes that letter in upper case. |
| `Style.CapitalizeHead` | index.js:668 | The font name keeps its length and never starts with a lower-case letter. |
| `Style.FontNameShape` | index.js:667-669 | The font name has no double quote and does not start with a lower-case letter. |
| `Style.StripNoQuote` | index.js:668 | Stripping the quotes leaves no double quote. |
| `Style.WidthReplaceInteger` | index.js:716 | An integer width followed by a unit is rewritten as the integer and a space. |
| `Style.WidthOfLength` | index.js:716-724 | An integer width with a unit compares as that integer, and is positive exactly when the integer is. |
| `Style.FractionalWidthAlone` | index.js:716-724 | The width `1.5` becomes `1 5`, which is not a number, so it is not positive. |
| `Style.PointsRefused` | index.js:643-648 | Converting the parts fails exactly when one part is refused. |
| `Cascade.ApplyStyle` | index.js:552-605 | The target after the loop over the parents, as `ApplyStyleSpec`. |
| `Cascade.NextClasses` | index.js:557-563 | One parent adds its classes to the class list. |
| `Cascade.NextStyles` | index.js:564-600 | One parent writes its tag defaults and then its inline rules. |
| `Cascade.InlineStyle` | index.js:567-591 | A parent's inline rules: read in full for a TR or the last parent, and with `ignoreProperties` set otherwise. |
| `Cascade.ParentClasses` | index.js:557-563 | One parent puts its `html-<tag>` class in front (unless it is `html-body` or already listed) and appends its non-empty `class` tokens. |
| `Cascade.PushTokens` | index.js:560-563 | Only the non-empty class tokens are pushed, in order. |
| `Cascade.CopyDefaults` | index.js:568-588 | The loop over a tag's default properties, as `CopyDefaultsSpec`. |
| `Cascade.WriteRules` | index.js:592-599 | The inline rules written in order, as `ApplyRules`. |
| `Cascade.RulesUntouched` | index.js:592-599 | Rules that never name a key leave it as it was. |
| `Cascade.LastRuleWins` | index.js:592-599 | Within one parent's inline rules, a key other than `decoration` holds the value of the last rule naming it. |
| `Cascade.RulesKeepDecoration` | index.js:593-596 | Inline rules only ever append to `decoration`. |
| `Cascade.DefaultsKeepDecoration` | index.js:578-583 | Tag defaults only ever append to `decoration`. |
| `Cascade.ParentKeepsDecoration` | index.js:564-600 | One parent only ever appends to `decoration`. |
| `Cascade.CascadeKeepsDecoration` | index.js:555-601 | Through all parents, decorations are only ever appended to. |
| `Cascade.ApplyStyleKeepsDecoration` | index.js:552-605 | `applyStyle` keeps the target's decorations in front and appends the new ones. |
| `Cascade.CascadeUntouched` | index.js:555-601 | Parents whose defaults and inline rules never name a key leave it as it was. |
| `Cascade.CascadeUntouchedFrom` | index.js:555-601 | The same for any run of consecutive parents: the key is as the run found it. |
| `Cascade.CascadeLastWriter` | index.js:564-600 | Last writer wins across the whole cascade: when parent i writes a key other than `decoration` (by its last inline rule naming it, or by its tag defaults when no inline rule names it and the key may be copied from that parent) and no later parent's defaults or inline rules name it, the key holds the value parent i wrote. |
| `Cascade.ApplyStyleLastWriter` | index.js:552-605 | The same for `applyStyle` itself, with the parents' own inline styles and any key other than `decoration` and `style`. |
| `Cascade.ApplyStyleUntouched` | index.js:552-605 | `applyStyle` changes no key, other than `style`, that nothing in the cascade names. |
| `Cascade.DefaultsKeepBoxes` | index.js:572-577 | For an ancestor other than the last parent, the tag defaults never write a key containing `margin` or `border` (`marginBottom`, `borderColor`, …). |
| `Cascade.CascadeBoxes` | index.js:555-601 | Through the parents before the last, every key containing `margin` or `border` stays as it was unless an inline rule names it; with `InlineAncestors` this leaves only the last parent and TR ancestors to set `margin` and `border`. |
| `Cascade.InlineAncestor` | index.js:567-591 | The inline style of an ancestor other than a TR sets no margin, width, height or border. |
| `Cascade.InlineAncestors` | index.js:567-591 | No ancestor before the last parent, other than a TR, names a box key in its inline style. |
| `Cascade.NonEmptyParts` | index.js:560-563 | The tokens kept are exactly the non-empty parts. |
| `Cascade.AddClassesKeeps` | index.js:557-563 | One more parent keeps every class already listed, and adds its own class and tokens. |
| `Cascade.ClassesGrow` | index.js:555-563 | No class is ever dropped from the list. |
| `Cascade.ClassesKept` | index.js:555-563 | Every parent's `html-<tag>` class (except `html-body`) and its class tokens are on the final list. |
| `Cascade.ClassesFromParents` | index.js:555-563 | Every class on the list is some parent's `html-<tag>` class or one of its tokens. |
| `Cascade.HtmlClassPrefix` | index.js:558 | A parent's own class starts with `html-`. |
| `Cascade.AddClassesDistinct` | index.js:558-563 | Adding a parent keeps `html-body` out and every `html-<tag>` class once. |
| `Cascade.ClassesDistinct` | index.js:555-563 | When no `class` token starts with `html-`, the list has no `html-body` and no `html-<tag>` class twice. |
| `Cascade.Strs` | index.js:602 | The class list as JavaScript strings, in order. |
| `Table.SetRowSpan` | index.js:534-542 | The rows after `setRowSpan`, as `SetRowSpanSpec`. |
| `Table.PlaceCell` | index.js:276-295 | One cell goes on its line, followed by its colSpan fillers and rowSpan splices. |
| `Table.PlaceCells` | index.js:273-296 | The loop over a row's cells, read live as the splices change them. |
| `Table.PlaceRow` | index.js:270-298 | A row with a cell array becomes a body line; the body index and the row index advance separately. |
| `Table.PlaceSection` | index.js:265-300 | A section's rows join `allRows`, then each row is placed. |
| `Table.BuildTableBody` | index.js:253-302 | `table.body` of the TABLE arm, or a hang when a span reads past the rows collected. |
| `Table.SpliceColumnSpliced` | index.js:537-540 | When the rows exist and can be spliced, the splice loop puts one filler into each row below. |
| `Table.RowSpanFills` | index.js:534-542 | A cell with rowSpan m puts one filler at its column into each of the m - 1 rows below it. |
| `Table.RowSpanPastEnd` | index.js:534-542 | A rowSpan reaching past the rows collected so far throws, so the conversion hangs. |
| `Table.ColSpanLoopFillers` | index.js:284-289 | The colSpan loop appends exactly its count of fillers and moves the column on. |
| `Table.ColSpanFills` | index.js:276-295 | A cell with colSpan n and no rowSpan is followed on its line by n - 1 fillers. |
| `Table.StackUnseen` | index.js:538-539 | When a row's `text` is truthy the filler goes into `text`, and `stack` is left unchanged. |
| `Table.PlainTable` | index.js:253-302 | With no spans, `table.body` is the cell array of every row of every section, in order. |
| `Table.SpannedTable` | index.js:253-302 | With any spans, when every row has a cell array, `table.body` has one line per row, and leaving out the `{text: ''}` fillers, its lines read one after the other are the rows' cells, section after section, row after row. |
| `Table.SetRowSpanPadded` | index.js:534-542 | `setRowSpan` only splices fillers into rows below the current one, into the array that takes them. |
| `Table.CellStepPadded` | index.js:276-295 | One cell puts itself and then only fillers on its line. |
| `Table.CellsLoopPadded` | index.js:263-297 | While the body index equals the row's position, no splice reaches the row being read, so its cells reach the line in order among the fillers. |
| `Table.RowsLoopPadded` | index.js:259-300 | A section's rows give one line each, their cells in order among the fillers. |
| `Table.RowSpanWidens` | index.js:534-542 | Splicing inside a run of fillers lengthens each run by one. |
| `Table.ColRowSpanFills` | index.js:276-295 | A cell with colSpan n and rowSpan m leaves n fillers at its column in each of the m - 1 rows below. |
| `Table.InsertIntoRun` | index.js:539 | A filler spliced anywhere into a run of fillers lengthens the run. |
| `Autosize.AutoSize` | index.js:310-358 | The table after the auto-size pass, as `AutoSizeSpec`. |
| `Autosize.RowCells` | index.js:319-335 | The sizes of one row's cells; it fails exactly when the row is not an array of readable cells. |
| `Autosize.CellSizes` | index.js:316-336 | The width and height sizes of every cell. |
| `Autosize.ColumnWidths` | index.js:339-346 | The second loop, as `Widths`. |
| `Autosize.RowHeights` | index.js:348-355 | The third loop, as `Heights`. |
| `Autosize.Update` | index.js:341-343 | An entry is replaced when it is unset, when it is a number and the new size a larger one, or when it is `auto` and the new size is not. |
| `Autosize.WidthsAreColumns` | index.js:339-346 | There is one width per column of the longest row, and width i is column i's sizes folded in row order. |
| `Autosize.WidthRowEntries` | index.js:340-345 | One row visits each of its columns once, in order, and never leaves a hole. |
| `Autosize.HeightsAreRows` | index.js:348-355 | Height r is row r's sizes folded in order, and some height is written exactly when some row has a cell. |
| `Autosize.HeightRowEntries` | index.js:349-354 | One row touches only its own height. |
| `Autosize.AutoSizeWrites` | index.js:310-358 | On a readable body, `widths` holds one entry per column and `heights` one per row with cells, each written only when non-empty. |
| `Autosize.PickIsMax` | index.js:339-355 | With only numbers and `auto` about, the entry a column or row settles on is one of its sizes, it is `auto` exactly when all are, and otherwise it is the largest number. |
| `Autosize.HeightByColSpan` | index.js:329-332 | A height is divided by colSpan, not rowSpan: rowSpan never changes it. |
| `Autosize.WidthShared` | index.js:325-328 | A numeric width is shared equally by the columns a cell spans. |
| `Autosize.StringWidthSticks` | index.js:341-343 | A non-numeric width other than `auto` in the first row is never replaced. |
| `ImageCache.Base64Cache.constructor` | index.js:41 | The cache starts with the entries given; each conversion picks its cache (index.js:96). |
| `ImageCache.Base64Cache.Depure` | index.js:46-76 | The entries after `depure`, as `DepureSpec`. |
| `ImageCache.Base64Cache.Sweep` | index.js:60-72 | The `forEach` over the keys, as `SweepFrom`. |
| `ImageCache.Base64Cache.UrlToBase64` | index.js:829-909 | The answer and the entries after `urltobase64`, as `UrlToBase64Spec`. |
| `ImageCache.Base64Cache.Refresh` | index.js:834-836 | A hit sets the entry's `created` to now. |
| `ImageCache.Base64Cache.StoreOutcome` | index.js:837-897 | A miss answers and stores according to how the download ended. |
| `ImageCache.Base64Cache.Catch` | index.js:888-897 | The `catch` of `urltobase64`, as `Caught`. |
| `ImageCache.CaughtStores` | index.js:888-897 | With `noerror` the catch resolves the placeholder and stores it under the key unless something truthy is there, touching no other key; without it, it rejects with 405 and changes nothing. |
| `ImageCache.SwapIsDead` | index.js:48-55 | The ttl/cache swap at the head of `depure` needs a truthy NaN, so it never runs. |
| `ImageCache.Stop` | index.js:60-72 | The sweep stops at the first entry that cannot be read, or at the end. |
| `ImageCache.SweepKeeps` | index.js:60-72 | From any key on, the sweep turns the entries kept so far into those kept up to where it stops. |
| `ImageCache.SweepStep` | index.js:61-65 | One turn of the sweep moves one key into the swept ones. |
| `ImageCache.DepureDeletesExpired` | index.js:46-76 | When every entry can be read, the sweep deletes exactly the expired entries and leaves the others unchanged. |
| `ImageCache.DepureStops` | index.js:46-76 | A `null` entry stops the sweep: it and every entry after it stay. |
| `ImageCache.StopAt` | index.js:60-72 | The sweep stops at the first unreadable entry. |
| `ImageCache.HitRefreshes` | index.js:834-836 | A hit answers with the cached data and changes only that entry's `created`. |
| `ImageCache.MissStoresOnce` | index.js:837-896 | A miss stores at most one entry, under the key with NaN sizes defaulted, and only when nothing truthy is there. |
| `ImageCache.NoErrorResolves` | index.js:829-909 | With `noerror` the promise always resolves; without it, only a failure rejects. |
| `ImageCache.MissKeyDiffers` | index.js:834-843 | With a NaN width or height, a miss stores under a key other than the one looked up. |
| `ImageCache.NaNKeyDiffers` | index.js:834-843 | A key containing `NaN` differs from one containing a number's digits. |
| `ImageCache.WholeNumberString` | index.js:834 | A whole number is written as its digits. |
| `ImageCache.NaNSizeNeverHits` | index.js:829-909 | With a NaN width or height, the key looked up stays empty after a miss, so the same call never hits. |
| `Converter.CreateOptions` | index.js:94-104 | Without options, a conversion uses the built-in defaults, the default font sizes and no auto-size. |
| `Converter.Create` | index.js:93-156 | `create` on the parsed body yields the `convertHtml` result under the options' settings. |
| `Converter.ConvertHtml` | index.js:165-175 | `convertHtml` yields the body's `stack` or `text`. |
| `Converter.ParseElement` | index.js:185-513 | The value a node resolves to and the image cache afterwards, as `ParseSpec`. |
| `Converter.GatherChildren` | index.js:229-249 | The children go into `stack` when a block-level descendant needs one; otherwise the cascade is applied. |
| `Converter.FinishElement` | index.js:252-511 | Everything after the loop over the children, as `ElementSpec`. |
| `Converter.Arm` | index.js:252-496 | The `switch (nodeName)`, as `ArmSpec`. |
| `Converter.ParseText` | index.js:196-228 | The text arm, as `TextSpec`. |
| `Converter.PreservedSpaces` | index.js:200-206 | The first `preserveLeadingSpaces` rule of the parent's style, or `false`. |
| `Converter.ConvertTable` | index.js:253-384 | The TABLE arm, as `TableArm`. |
| `Converter.ConvertTableData` | index.js:361-382 | A TABLE's `data-pdfmake`: `layout` goes to the node, every other key into `table`. |
| `Converter.ConvertHr` | index.js:411-444 | The HR arm, as `HrArm`. |
| `Converter.ConvertList` | index.js:445-455 | The OL/UL arm, as `ListArm`. |
| `Converter.ConvertImage` | index.js:456-468 | The IMG arm and the cache after it, as `ImgArm`. |
| `Converter.ArrayImageCaught` | index.js:456-468 | An array image whose first item is `http` makes `isValidURL` throw inside the try of `urltobase64` (index.js:822-825), so with `noerror` the image becomes the placeholder and the catch (index.js:888-897) stores it; any other array image is left as it is. |
| `Converter.FetchImage` | index.js:462-466 | The `urltobase64` call of the IMG arm and the substitution of its answer. |
| `Converter.Assign` | index.js:504-506 | Copying `data-pdfmake`'s keys: the keys given override, the rest stay. |
| `Converter.StripBreaks` | index.js:208 | Stripping never lengthens the text. |
| `Converter.StripBreaksNoBreak` | index.js:208 | No line feed survives the stripping. |
| `Converter.StripBreaksIdentity` | index.js:208 | Text without a line feed is left as it is. |
| `Converter.FirstValue` | index.js:200-206 | With no rule of that key, the answer is `false`. |
| `Converter.TextNamed` | index.js:196-224 | A text node hangs exactly when it is not empty and has no parent; a non-empty result is an object named `#TEXT`. |
| `Converter.TextObjectNamed` | index.js:215-228 | The fall-through after the text arm names the object `#TEXT`. |
| `Converter.TextChildStays` | index.js:497-499 | A single text child is never collapsed into its parent, because it has a node name. |
| `Converter.TrimEdges` | index.js:213 | Trimmed text starts and ends with a non-white-space character. |
| `Converter.CleanedText` | index.js:200-213 | Kept text has no line feed unless white space is preserved, and no white space at either end under a trimming parent. |
| `Converter.TextObjectKeeps` | index.js:215-228 | The fall-through keeps a non-empty text and names the object `#TEXT`. |
| `Converter.TextObjectEmpty` | index.js:215-228 | A falsy cascaded `text` is reset to `[]`, and the object is named `#TEXT`. |
| `Converter.TextShape` | index.js:196-224 | A text node resolves to `''` or to a `#TEXT` object whose non-empty text has the shape `CleanedText` states. |
| `Converter.TextValueShape` | index.js:214-224 | Non-empty cleaned text becomes a `#TEXT` object holding it. |
| `Converter.BrIsLineBreak` | index.js:401-405 | A bare BR converts to `{text: "\n", nodeName: "BR"}`. |
| `Converter.ParseVia` | index.js:185-251 | An element other than COL and COLGROUP is its children's results put through its arm. |
| `Converter.ArmIsBreak` | index.js:401-405 | The BR arm sets `text` to a line break. |
| `Converter.ArmIsScript` | index.js:406-410 | The SUB and SUP arms set `sub` or `sup` to the script offset. |
| `Converter.ArmIsHr` | index.js:411-444 | The HR arm draws its line. |
| `Converter.ArmIsList` | index.js:445-455 | The OL and UL arms move the children to `ol` or `ul`. |
| `Converter.FinishFrom` | index.js:496-511 | An arm's result, after the collapse, is what the element resolves to. |
| `Converter.ElementFrom` | index.js:496-511 | An arm's result that neither the collapse nor `data-pdfmake` changes is what the element resolves to. |
| `Converter.ScriptMarker` | index.js:406-410 | SUB and SUP carry the script offset whatever their children, and leave the cache untouched. |
| `Converter.HrGeometry` | index.js:411-444 | An HR without `data-pdfmake` draws the default 514-point line with margins `[0, 12, 0, 12]` and no text. |
| `Converter.HrDrawsDefault` | index.js:411-444 | The HR arm's default line and margins. |
| `Converter.HrOverride` | index.js:413-440 | Plain-JSON `data-pdfmake` overrides the line key by key; anything else makes the HR hang. |
| `Converter.FontStepClamps` | index.js:478-480 | The FONT size attribute is clamped to 1..7, or NaN when it does not start with a number. |
| `Converter.FontLadder` | index.js:478-486 | With the default font sizes, size n gives entry `clamp(n)` of the ladder. |
| `Converter.FontNaN` | index.js:478-486 | A size attribute that does not start with a number gives NaN. |
| `Converter.GatherList` | index.js:229-249 | Before its arm, a list element holds its converted children in `stack` or `text`. |
| `Converter.ListArmKeeps` | index.js:445-455 | The list arm moves those children to the list key, and neither `text` nor `stack` is left. |
| `Converter.ListArmOf` | index.js:445-455 | The list arm's result, with `type` set from `listStyle` or `listStyleType` when truthy. |
| `Converter.ListOfChildren` | index.js:445-455 | A list holds its converted children, in order, under `ol` or `ul`. |
| `Converter.IgnoredHangs` | index.js:185-249 | A COL or COLGROUP anywhere in a subtree makes the whole subtree hang. |
| `Converter.ChildrenHang` | index.js:229-240 | A hanging child hangs the loop over the children. |
| `Converter.ResultShape` | index.js:185-513 | A node resolves to `''` or to an object. |
| `Converter.ChildrenKept` | index.js:229-240 | The kept children are in order, at most one per child, and none of them has an empty `text` list. |
| `Converter.Kept` | index.js:233-236 | A child contributes at most one item. |
| `Converter.SearchFindsBlocks` | index.js:515-523 | On well-formed values the search never throws, and it answers exactly whether some descendant in the `text` lists is block level. |
| `Converter.SearchItemsFinds` | index.js:516-521 | The loop over the `text` list finds a block-level item at any depth. |
| `Converter.NullItemThrows` | index.js:516-519 | A first item that cannot be read makes the search throw. |
| `Converter.ImageResolves` | index.js:456-468 | The IMG arm never hangs on a string image; a non-`http` source is left as it is; without width and height the size passed is 720. |
| `Converter.ImageKeyStable` | index.js:462-466 | The sizes the IMG arm passes are never NaN, so a miss stores under the key it looks up. |
| `Converter.BodyValue` | index.js:256-302 | The body grid as an array with one array per row. |

## Left out

- The DOM: `DOMParser` and `window` are replaced by the abstract tree `Markup.Node`. Attribute order, `outerHTML` serialisation (kept as an opaque string for SVG), comments beyond their node type and the `nodeType` values are not modelled.
- `JSON.parse` of `data-pdfmake`: the attribute arrives already parsed (`Markup.Data`: JSON, JSON once single quotes become double, or malformed).
- Promises and `async`/`await`: a promise that never settles is the result `None`. The order in which concurrent awaits finish is not modelled; the walk is sequential, as the `for` loop with `await` in `index.js:229-249` makes it.
- `fetch` and `imageThumbnail`: how the download and the thumbnailer end for a URL and size is an input (`ImageCache.Fetch`). `isValidURL` is the `valid` input. The error serialisation of a rejected answer is not modelled.
- The clock: `new Date().getTime()` is the `now` parameter.
- `Object.keys` order: the keys the sweep visits are an input that lists every key once.
- `console.log` in `depure`'s `catch`.
- The placeholder image payload (`filebase64default`): it is the `filebase64` setting, and its bytes are not modelled.
- `empty`: it reads an undefined variable `t` and throws on its first entry with a `created` property. It is not part of this model.
- The `replaceText` hook (`index.js:210`), a caller-supplied function, is not part of this model.
- Numbers are exact reals: IEEE-754 rounding of the px, cm and autosize arithmetic is not modelled. `Number.prototype.toString` is modelled for whole numbers and NaN only.
- Case mapping is ASCII only; `toUpperCase`/`toLowerCase` of non-ASCII characters is not modelled.
- `Style.ParseStyle`: `font-family`, `white-space` and the border width comparison are modelled, but the general fractional width rewrite is proved only for integer widths and for the `1.5` case (`Style.WidthOfLength`, `Style.FractionalWidthAlone`).
- `Converter.ParseElement`: a child that throws makes its parent hang; it is not dropped from the result, because the executor's promise is never rejected.
- `Table.BuildTableBody`: a `colSpan` or `rowSpan` of `+Infinity` is modelled as a hang rather than as a loop that never ends.
- `OtherSuffix`: a suffix holding a digit, ending in white space, a lone `.` after a whole numeral, or an `x` right after the numeral `0` is not covered, because JavaScript's `Number` reads some of these as numbers (`12e5`, `12 `, `12.`, `0x1f`) and `convertToUnit` then returns that number (`Units.NumberLiteral` covers the plain numerals).
- `CascadeBoxes`: the inline half (`Cascade.InlineAncestors`) is stated for the exact keys `margin` and `border` only, because an ancestor's inline style read with `ignoreProperties` can still yield other keys containing them (`border-color` becomes `borderColor`).
- `SpannedTable`: it assumes every row has a `stack` or `text` array. A row without one adds no line, so the body index used as `rowIndex` falls behind the row's position; a later `rowSpan` can then splice a filler into the row being read, whose `forEach` has a fixed length, and push its last cell out of the line. The order of cells in such tables is not stated.
