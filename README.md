# GreenMiles rules in Dafny

GreenMiles is a mobile web prototype: a camera page that tints an air-quality
overlay and drifts particles with the wind, a tree page that estimates a
trunk's diameter (DBH) from two taps and turns it into CO2/O2 figures, a
credits page where saplings are redeemed against a balance, a list of
walking routes, a footer navigation bar, and a VR forest gallery. This
project models the deterministic rules inside those pages and proves what
they promise.

Modules, one per page plus three shared ones:

- `Basics`: an `Option` for `null`, clamps, `Math.round`, `+x.toFixed(1)`,
  and `Maths`, which bundles `Math.PI`, `sin`, `cos`, `tan` and `sqrt` as
  uninterpreted inputs.
- `Text`: digits in a radix, `n.toString()`, and `parseInt(s, radix)`.
- `Sequences`: `findIndex` and a stable sort by a numeric key.
- `AirQuality` and `ParticleField`: src/app/camera/page.tsx. The particle
  loop is a method over an `array<Particle>`, updated in place.
- `TreeEstimator` and `TreeMeasure`: src/app/tree/page.tsx.
  - The session is a value and a transition function per handler.
  - `MeasurePage` is the same state in fields; each of its handler methods is
    proved equal to the matching transition.
- `Credits`: src/app/credits/page.tsx.
- `Routes`: src/app/built-in-routes/page.tsx.
- `FooterNav`: src/app/main-page/layout.tsx.
- `VrGallery`: src/app/vr/page.tsx.

All quantities are exact `real`s or `int`s. Where the source computes
`NaN` or `Infinity`, the model uses an explicit constructor instead:
- `None` from `PixelToCm`
- `NonFiniteEstimate`
- `None` from `ParseInt`

The estimated DBH grows with the field of view in the code: `pixelToCm`
divides by the focal length `(w/2)/tan(fov/2)`, so the size grows with
`tan(fov/2)` (`TreeEstimator.PixelToCmGrowsWithFov`). Every operation here
is a function of its inputs, so the same inputs always give the same
estimate.

## Model

| member | source | states |
|---|---|---|
| AirQuality.MapPm25 | src/app/camera/page.tsx:138-145 | `null` gives the neutral tint and score 0. Otherwise the label is decided by upper-inclusive bands at 12, 35, 55 and 150, each in both directions. Tint and score are the fixed style of that label, so the score stays within 0..0.90. |
| AirQuality.MapCo2 | src/app/camera/page.tsx:147-153 | Like PM2.5, with upper-inclusive bands at 500, 700 and 1000 ppm. CO2 never reads "very unhealthy". Its top score is 0.85 with the red tint. |
| AirQuality.ScoresMonotone | src/app/camera/page.tsx:138-153 | A higher reading never scores lower, and a missing reading scores lowest. |
| AirQuality.CombineAir | src/app/camera/page.tsx:155-161 | Keeps both bands. The tint is the worse band's, with a tie going to PM2.5. The alpha is 0.25 plus half the worse score, so it lies in 0.25..0.70. |
| AirQuality.CombineExample | src/app/camera/page.tsx:155-161 | PM2.5 40 and CO2 600 combine to severity 0.60, the PM2.5 tint and alpha 0.55. |
| AirQuality.RemoveFirst | src/app/camera/page.tsx:164 | `replace("#", "")` removes exactly one `#` when there is one (the same characters minus one). Without one the text is unchanged. |
| AirQuality.Slice | src/app/camera/page.tsx:166-168 | `slice` returns the exact subsequence when the range is inside the text; otherwise a cut-back piece no longer than the range. |
| Text.ParseInt | src/app/camera/page.tsx:166-168 | `parseInt` on a string made only of digits of the radix is the number those digits denote. |
| AirQuality.HexToRgb | src/app/camera/page.tsx:163-170 | For any `#RRGGBB` text, each channel is the base-16 value of its two digits (characters 1-2, 3-4 and 5-6), a number in 0..255. |
| AirQuality.HexPair | src/app/camera/page.tsx:163-170 | A channel value's two hexadecimal digits denote that value. This is the inverse direction used for the round trip. |
| AirQuality.RgbToHex | src/app/camera/page.tsx:163-170 | Every three channels in 0..255 give a well-formed `#RRGGBB`. |
| AirQuality.HexRoundTrip | src/app/camera/page.tsx:163-170 | Parsing the spelled-out colour gives back the same three channels. |
| AirQuality.GoodTintRgb | src/app/camera/page.tsx:139 | `#DDE7F0` parses to (221, 231, 240). |
| AirQuality.StyleTintsAreColours | src/app/camera/page.tsx:138-153 | Every tint either classifier can return is a well-formed colour. |
| AirQuality.HexColourByDigits | src/app/camera/page.tsx:163-170 | A hash followed by six hexadecimal digits is a colour. |
| AirQuality.CombinedTintIsColour | src/app/camera/page.tsx:155-170 | The combined tint always parses. |
| AirQuality.ToWindVector | src/app/camera/page.tsx:172-179 | A missing direction or speed gives drift (0.3, 0.1) at 15 px/s. Otherwise the direction is sin/cos of the bearing turned half round, and the rate is 15 plus 15 per m/s of speed clamped to 0..8, always within 15..135. |
| AirQuality.WindBlowsAway | src/app/camera/page.tsx:174-176 | Given the half-turn sign law for sin and cos, the drift points opposite the bearing the wind comes from. |
| AirQuality.ModeOf | src/app/camera/page.tsx:202-203 | Leaves exactly when the worse score is at least 0.35. |
| AirQuality.ParticleCount | src/app/camera/page.tsx:205 | 120 particles for leaves, 160 for mist, and nothing else. |
| AirQuality.MistIffBothGood | src/app/camera/page.tsx:155-203 | Mist exactly when each reading is missing or within its "Good" band. |
| AirQuality.DrawAlpha | src/app/camera/page.tsx:268-275 | The drawn alpha never exceeds 0.65 for leaves or 0.55 for mist. Below the cap it is the particle's alpha times the combined alpha times 0.8 or 0.7. It is non-negative for non-negative factors. |
| AirQuality.QualityFace | src/app/camera/page.tsx:348-354 | The face for each lower-inclusive step of 0.2, each step in both directions. |
| AirQuality.QualityFaceMonotone | src/app/camera/page.tsx:348-354 | A worse score never shows a happier face. |
| ParticleField.Wrap | src/app/camera/page.tsx:252-255 | A coordinate within two radii of the field stays put. One beyond the low edge re-enters at size + r, one beyond the high edge at -r. For r, size >= 0 the result always lies within [-2r, size + 2r]. |
| ParticleField.Advance | src/app/camera/page.tsx:242-255 | The new velocity is the wind drift per frame plus the wobble. The position moves by it and then wraps, so it ends in the field. Radius, seed and alpha are kept, and a move that stays inside is not wrapped. |
| ParticleField.MoveParticle | src/app/camera/page.tsx:240-255 | The loop body, in the source's statement order, computes exactly `Advance`. |
| ParticleField.StepFrame | src/app/camera/page.tsx:236-256 | After the in-place loop, every particle is `Advance` of its own old value at t = time/1000. This is proved with the invariant that iteration i changes only particle i. Every particle ends within two radii of the canvas. |
| TreeEstimator.KRange | src/app/tree/page.tsx:236-243 | The fixed coefficient pairs; generic falls back to broadleaf. For every species 0 < kMin <= kMax. |
| TreeEstimator.FromAnnual | src/app/tree/page.tsx:250-266 | The yearly figures are kept. Daily grams are yearly kilograms times 1000 / 365. Every O2 figure is 0.727 of its CO2 counterpart. An ordered yearly range gives all four ranges ordered, and a non-negative one gives non-negative minima. |
| TreeEstimator.AnnualOrdered | src/app/tree/page.tsx:246-251 | With positive coefficients in order and a non-negative light factor, the yearly CO2 range is ordered and non-negative. |
| TreeEstimator.EstimateFromDbh | src/app/tree/page.tsx:245-267 | The yearly CO2 is k times dbh squared times the light factor, for the species' kMin and kMax; the other figures follow from it. With a light factor >= 0, every min <= max and the figures are non-negative. |
| TreeEstimator.ScaledFigure | src/app/tree/page.tsx:253-259 | Each derived figure is proportional to the yearly figure it comes from. |
| TreeEstimator.AnnualQuadratic | src/app/tree/page.tsx:247-251 | A DBH `c` times as large gives `c * c` times the yearly CO2. |
| TreeEstimator.AnnualLinear | src/app/tree/page.tsx:250-251 | The yearly CO2 is linear in the light factor. |
| TreeEstimator.FromAnnualScales | src/app/tree/page.tsx:253-266 | Scaling the yearly range scales all eight figures. |
| TreeEstimator.EstimateQuadraticInDbh | src/app/tree/page.tsx:245-267 | The whole estimate grows with the square of the DBH. |
| TreeEstimator.EstimateLinearInLight | src/app/tree/page.tsx:245-267 | The whole estimate grows linearly with the light factor. |
| TreeEstimator.PixelToCm | src/app/tree/page.tsx:230-234 | The result is non-finite exactly when the video width is 0. Otherwise it equals 2·distance·pixels·tan(fov/2)/width, the pinhole similar-triangles size, and is non-negative for non-negative inputs. |
| TreeEstimator.NonNegativeQuotient | src/app/tree/page.tsx:233 | A non-negative size over a positive width is non-negative. |
| TreeEstimator.PixelToCmLinearInLength | src/app/tree/page.tsx:230-234 | The size is linear in the on-screen length. |
| TreeEstimator.PixelToCmLinearInDistance | src/app/tree/page.tsx:230-234 | The size is linear in the distance to the trunk. |
| TreeEstimator.PixelToCmGrowsWithFov | src/app/tree/page.tsx:230-234 | A larger half-angle tangent gives a larger size for the same pixels. |
| TreeEstimator.NonNegativeProduct | src/app/tree/page.tsx:233 | The numerator of the size is non-negative for non-negative inputs. |
| TreeEstimator.QuotientMonotone | src/app/tree/page.tsx:232-233 | The size is monotone in the tangent. |
| TreeEstimator.RoundFigures | src/app/tree/page.tsx:285-292 | Each stored figure is the computed one rounded to one decimal (`Round1`), so within 0.05 of it. |
| TreeEstimator.RoundFiguresOrdered | src/app/tree/page.tsx:285-292 | Rounding keeps each minimum at or below its maximum. |
| TreeEstimator.MakeEstimate | src/app/tree/page.tsx:280-294 | The result records the inputs used and is non-finite exactly for a zero-width video. Otherwise it holds the unrounded DBH from `PixelToCm` and the rounded `EstimateFromDbh` figures, ordered whenever the light factor is >= 0. |
| TreeEstimator.DistanceFromInput | src/app/tree/page.tsx:507 | The distance always lies in 50..500 and is kept inside that range. An entry that is not a number, or is below 50, gives 50; one above 500 gives 500. |
| TreeEstimator.FovPreset | src/app/tree/page.tsx:83-86 | The preset always lies in 45..90 and is kept inside that range. Below 45 gives 45, above 90 gives 90. |
| TreeEstimator.FovFromInput | src/app/tree/page.tsx:525 | The field of view always lies in 45..90 and is kept inside that range. An entry that is not a number, or is below 45, gives 45. An entry above 90 gives 90. |
| TreeEstimator.FovGuess | src/app/tree/page.tsx:88-95 | 63 without a video. Otherwise 65 above aspect 1.9, 63 above 1.7 and 60 below, each in both directions. The preset clamp leaves every guess unchanged. |
| TreeMeasure.Initial | src/app/tree/page.tsx:37-43 | The first render is valid, not measuring, with no taps and no estimate. |
| TreeMeasure.Tap | src/app/tree/page.tsx:216-227 | Outside measure mode nothing changes. Below two taps the tap is appended; with two it starts a new pair. All else is kept, and the invariant (at most two taps) is preserved. |
| TreeMeasure.Toggle | src/app/tree/page.tsx:454 | Flips measure mode, clears the taps and the estimate, keeps the settings, and preserves the invariant. |
| TreeMeasure.ClearPoints | src/app/tree/page.tsx:465 | Clears the taps only and preserves the invariant. |
| TreeMeasure.CalculateStep | src/app/tree/page.tsx:269-298 | Nothing changes unless measuring with exactly two taps and mounted elements. Then it stores the estimate for the tap distance and current settings, leaves measure mode, keeps taps and settings, and preserves the invariant. |
| TreeMeasure.SliderValue | src/app/tree/page.tsx:563-569 | The light factor always lies in 0.8..1.2, the range control's bounds. |
| TreeMeasure.ApplySetting | src/app/tree/page.tsx:505-569 | Each settings handler changes only its own field, to the clamped value, so the settings stay in range. |
| TreeMeasure.Step | src/app/tree/page.tsx:454-473 | Every user action (page buttons and canvas taps) preserves the invariant. Reset outside measure mode changes nothing, since its button is not shown. |
| TreeMeasure.RunKeepsValid | src/app/tree/page.tsx:216-298 | No sequence of actions breaks the invariant: at most two taps, settings in range, and ordered ranges in any estimate shown. |
| TreeMeasure.ReachableIsValid | src/app/tree/page.tsx:222-226 | From the first render the taps never exceed two. |
| TreeMeasure.ToggleTwice | src/app/tree/page.tsx:454 | Measure then Cancel restores the mode with taps and estimate cleared. |
| TreeMeasure.MeasureFromStart | src/app/tree/page.tsx:216-298 | Measure, two taps and Calculate on a fresh page store the estimate for the default settings and leave measure mode. |
| TreeMeasure.ThirdTapRestarts | src/app/tree/page.tsx:222-226 | Two taps make a pair; a third starts over with just itself. |
| TreeMeasure.MeasurePage.constructor | src/app/tree/page.tsx:37-43 | The fields start as `Initial()`. |
| TreeMeasure.MeasurePage.OnCanvasClick | src/app/tree/page.tsx:216-227 | The fields change exactly as `Tap`. |
| TreeMeasure.MeasurePage.ToggleMeasure | src/app/tree/page.tsx:454 | The fields change exactly as `Toggle`. |
| TreeMeasure.MeasurePage.Reset | src/app/tree/page.tsx:465 | The fields change exactly as `ClearPoints`. |
| TreeMeasure.MeasurePage.Calculate | src/app/tree/page.tsx:269-298 | The fields change exactly as `CalculateStep`. |
| TreeMeasure.MeasurePage.SetDistance | src/app/tree/page.tsx:507 | Only the distance changes, to the clamped entry. |
| TreeMeasure.MeasurePage.SetFov | src/app/tree/page.tsx:525 | Only the field of view changes, to the clamped entry. |
| TreeMeasure.MeasurePage.ApplyFovPreset | src/app/tree/page.tsx:83-86 | Only the field of view changes, to the clamped preset. |
| TreeMeasure.MeasurePage.SuggestFovByAspect | src/app/tree/page.tsx:88-95 | Only the field of view changes, to the aspect guess. |
| TreeMeasure.MeasurePage.SetSpecies | src/app/tree/page.tsx:546 | Only the species changes. |
| TreeMeasure.MeasurePage.SetLightFactor | src/app/tree/page.tsx:569 | Only the light factor changes, to the control's value. |
| Sequences.FirstIndex | src/app/main-page/layout.tsx:104 | The index of the first element with the property, with all earlier ones lacking it. `None` exactly when no element has it. |
| Sequences.InsertBy | src/app/credits/page.tsx:46 | Inserting into a key-sorted list keeps it sorted and adds exactly the new element. |
| Sequences.SortBy | src/app/credits/page.tsx:45-48 | The result is in ascending key order and a permutation of the input. |
| Sequences.SortBySorted | src/app/credits/page.tsx:45-48 | A list already in key order comes back unchanged. |
| Sequences.InsertByWithKey | src/app/credits/page.tsx:46 | The inserted element goes ahead of every element with its own key, and the other keys' elements keep their order. |
| Sequences.SortByStable | src/app/credits/page.tsx:45-48 | The sort is stable: for every key, the elements with that key keep their input order. |
| Credits.SortedRewards | src/app/credits/page.tsx:45-48 | The rewards in ascending cost order, with the same elements as the catalogue. |
| Credits.SortedRewardsIsCatalogue | src/app/credits/page.tsx:12-48 | The sorted list is the catalogue as written. |
| Credits.NoticeText | src/app/credits/page.tsx:53-61 | The refusal text, and the success text naming the reward. |
| Credits.BeginRedeem | src/app/credits/page.tsx:50-58 | While busy nothing changes. A short balance sets only the refusal notice. Otherwise the reward becomes busy and its cost and name wait on the call. The balance is untouched. |
| Credits.FinishRedeem | src/app/credits/page.tsx:60-65 | When the call settles, the waiting cost is taken from the balance at that time, the notice names the reward, and the busy flag clears. |
| Credits.Redeem | src/app/credits/page.tsx:50-67 | A whole redemption: ignored while busy, refused with a notice when short, otherwise exactly `cost` taken with the success notice and the busy flag cleared. |
| Credits.CatalogueIdsNonEmpty | src/app/credits/page.tsx:12-37 | Every reward id is non-empty, so a busy reward blocks. |
| Credits.Act | src/app/credits/page.tsx:50-65 | A click on a rendered button (a disabled one does nothing, lines 95-96), or a call settling, preserves the invariant: balance >= 0, and a waiting redemption is the busy one and fits the balance. |
| Credits.BalanceNeverNegative | src/app/credits/page.tsx:50-65 | However clicks and settling calls interleave, the invariant and a non-negative balance hold throughout. |
| Credits.ButtonCaption | src/app/credits/page.tsx:122 | "Processing" exactly for the busy reward. "Redeem" exactly when it is not busy and is affordable. "Not enough" only on a disabled button. |
| Credits.EnabledButtonRedeems | src/app/credits/page.tsx:50-65 | An enabled button on an idle page takes exactly the cost and leaves a non-negative balance. |
| Credits.OtherButtonEnabledButIgnored | src/app/credits/page.tsx:95-96 | While one redemption waits, another affordable reward's button stays enabled, but its click changes nothing. |
| Credits.NextGoal | src/app/credits/page.tsx:142-146 | Nothing exactly when every reward is within reach. Otherwise the goal is the first reward costing more than the balance, with need = cost − points > 0. The percentage lies in 0..100 and, for a non-negative balance, is the rounded 100·points/cost. |
| Credits.PercentBelowHundred | src/app/credits/page.tsx:146 | Below the cost the rounded percentage already lies in 0..100. |
| Credits.StartingGoal | src/app/credits/page.tsx:142-146 | With the starting 700 credits the goal is the cherry sapling, 100 away and 88% reached. |
| Credits.PointsPage.constructor | src/app/credits/page.tsx:41-43 | 700 points, not busy, no notice. |
| Credits.PointsPage.HandleRedeem | src/app/credits/page.tsx:50-67 | The fields change exactly as `Redeem`. |
| Routes.SortedRoutes | src/app/built-in-routes/page.tsx:49-52 | The routes in ascending walking time, with the same elements. |
| Routes.SortedRoutesIsCatalogue | src/app/built-in-routes/page.tsx:14-52 | The sorted list is the catalogue as written. |
| Text.FormatNat | src/app/built-in-routes/page.tsx:119-122 | `${n}`: a non-empty digit string, with no leading zero, that denotes `n`. |
| Text.DecimalString | src/app/built-in-routes/page.tsx:119-122 | `${n}` for an integer, with a minus sign below 0. |
| Routes.FormatMinutes | src/app/built-in-routes/page.tsx:118-123 | "n min" under an hour. Otherwise the hours, then the remaining minutes when there are any. |
| Routes.HoursAndMinutes | src/app/built-in-routes/page.tsx:120-121 | For n >= 60: 60h + m = n, 0 <= m < 60 and h >= 1. |
| Routes.ReadNumber | src/app/built-in-routes/page.tsx:118-123 | Reading a number always consumes text. This is the parser for the round trip. |
| Routes.ReadNumeral | src/app/built-in-routes/page.tsx:119-122 | A numeral followed by a space reads back as the number and the rest. |
| Routes.ParseUnderAnHour | src/app/built-in-routes/page.tsx:119 | "n min" reads back as n. |
| Routes.ParseWholeHours | src/app/built-in-routes/page.tsx:122 | "h hr" reads back as 60h. |
| Routes.ParseHoursAndMinutes | src/app/built-in-routes/page.tsx:122 | "h hr m min" reads back as 60h + m. |
| Routes.ParseFormatMinutes | src/app/built-in-routes/page.tsx:118-123 | Formatting then parsing gives back every walking time. |
| Routes.FormatMinutesInjective | src/app/built-in-routes/page.tsx:118-123 | Two different walking times never show the same text. |
| Routes.AqiDotColour | src/app/built-in-routes/page.tsx:142-151 | The brand colour exactly for "Excellent" or "Great", emerald exactly for "Good", and grey for everything else. |
| Routes.BeginStart | src/app/built-in-routes/page.tsx:54-56 | Ignored while busy; otherwise the route becomes busy and waits. |
| Routes.FinishStart | src/app/built-in-routes/page.tsx:58-60 | After the wait the busy flag clears and the waiting route is opened. |
| Routes.Start | src/app/built-in-routes/page.tsx:54-61 | A whole start: no effect while busy; otherwise it ends not busy and navigating to that route. |
| Routes.SecondStartIgnored | src/app/built-in-routes/page.tsx:55 | A second Start during the wait opens nothing; the first route is the one that opens. |
| Routes.RoutesPage.constructor | src/app/built-in-routes/page.tsx:47 | Not busy. |
| Routes.RoutesPage.HandleStart | src/app/built-in-routes/page.tsx:54-61 | The field and the navigation are exactly those of `Start`. |
| FooterNav.ActiveIndexFor | src/app/main-page/layout.tsx:103-106 | The first button whose path starts the current path, with no earlier one matching. `None` exactly when none matches. |
| FooterNav.ButtonsPrefixFree | src/app/main-page/layout.tsx:94-100 | No button's path is a prefix of another's. |
| FooterNav.MatchingButtonIsActive | src/app/main-page/layout.tsx:94-106 | Any button whose path starts the current path is the active one. |
| FooterNav.Click | src/app/main-page/layout.tsx:108-116 | The active button deselects and goes to "/phone"; any other becomes active and goes to its path. |
| FooterNav.ClickTwice | src/app/main-page/layout.tsx:108-116 | Clicking an inactive button twice leaves none active, on "/phone"; clicking an active one twice makes it active again. |
| FooterNav.HomeMatchesNoButton | src/app/main-page/layout.tsx:104-111 | On "/phone", where the deselect click navigates, no button is active. |
| FooterNav.ClickAgreesWithPath | src/app/main-page/layout.tsx:103-116 | For every click, selecting or deselecting, the path it navigates to makes the path effect choose what the click chose. |
| FooterNav.Zoom | src/app/main-page/layout.tsx:157-161 | Always in 0.7..1. It is 0.85 for all when none is active; otherwise 1 for the active button, 0.85 for its neighbours and 0.7 from two steps away. |
| FooterNav.ZoomFallsWithDistance | src/app/main-page/layout.tsx:161 | A button farther from the active one is never larger. |
| FooterNav.Footer.constructor | src/app/main-page/layout.tsx:92 | No button active. |
| FooterNav.Footer.OnPathname | src/app/main-page/layout.tsx:103-106 | The field becomes the active index for the path. |
| FooterNav.Footer.ButtonClick | src/app/main-page/layout.tsx:108-116 | The field and the router target are exactly those of `Click`. |
| VrGallery.FirstWord | src/app/vr/page.tsx:60 | `split(' ')[0]`: the longest space-free prefix, followed by a space or the end. |
| VrGallery.SpeciesSetMembers | src/app/vr/page.tsx:60 | The species set holds exactly the first words of the trees' species. |
| VrGallery.UniqueAtMostTotal | src/app/vr/page.tsx:59-60 | There are never more distinct species than trees. |
| VrGallery.SumCo2 | src/app/vr/page.tsx:61 | The left-to-right sum is non-negative when every tree's figure is. |
| VrGallery.SumCo2Cons | src/app/vr/page.tsx:61 | A tree added in front adds exactly its yearly CO2. |
| VrGallery.TotalCo2Tonnes | src/app/vr/page.tsx:61 | The total in tonnes is the kilogram sum over 1000. |
| VrGallery.FirstWordOf | src/app/vr/page.tsx:60 | A space-free word followed by a space is its own first word. |
| VrGallery.CatalogueFirstWords | src/app/vr/page.tsx:19-60 | The catalogue's first words are Douglas, Oak and Maple. |
| VrGallery.SpeciesOfThree | src/app/vr/page.tsx:60 | Three trees' species set is their three first words. |
| VrGallery.CatalogueSpecies | src/app/vr/page.tsx:19-60 | The catalogue's species set is {Douglas, Oak, Maple}. |
| VrGallery.CatalogueCo2 | src/app/vr/page.tsx:19-61 | The catalogue's yearly CO2 adds up to 165 kg. |
| VrGallery.GalleryStats | src/app/vr/page.tsx:59-61 | The header shows 3 trees and 3 species, and 0.165 tonnes displayed as 0.2. |
| VrGallery.NextSelection | src/app/vr/page.tsx:63-80 | Opening selects that URL and the close button clears. Escape clears and other keys keep. A click on the backdrop itself clears and one inside keeps (line 206). |
| VrGallery.OpeningATreeShowsIt | src/app/vr/page.tsx:124 | Every tree's card opens the viewer on its own URL, and the viewer is shown. |
| VrGallery.OnlyOpenShows | src/app/vr/page.tsx:203-209 | No event but opening can make the viewer appear. |
| VrGallery.Gallery.constructor | src/app/vr/page.tsx:56 | Nothing selected. |
| VrGallery.Gallery.OpenVR | src/app/vr/page.tsx:63-66 | The field changes as `NextSelection` for opening. |
| VrGallery.Gallery.CloseVR | src/app/vr/page.tsx:68-71 | The field changes as `NextSelection` for the close button. |
| VrGallery.Gallery.HandleEsc | src/app/vr/page.tsx:75-77 | The field changes as `NextSelection` for a key press. |
| VrGallery.Gallery.HandleBackdropClick | src/app/vr/page.tsx:206 | The field changes as `NextSelection` for a backdrop click. |
| Basics.Clamp | src/app/tree/page.tsx:84 | `Math.max(lo, Math.min(hi, v))` lies in lo..hi and keeps any value already there. |
| Basics.Round | src/app/credits/page.tsx:146 | `Math.round` is the unique integer within half of x, halves going up. |
| Basics.Round1 | src/app/tree/page.tsx:285-292 | `+x.toFixed(1)` is a multiple of one tenth and the nearest one to x, halves going away from zero. It lies within 0.05 of x; x >= 0 gives a result >= 0, and x < 0 a result <= 0. |
| Basics.Round1Idempotent | src/app/tree/page.tsx:285-292 | Rounding an already rounded value changes nothing. |
| Basics.Round1Monotone | src/app/tree/page.tsx:285-292 | Rounding to one decimal never reverses an order. |

## Left out

- The camera stream (`getUserMedia`), geolocation, the Google Maps page, and the OpenWeather proxy in src/app/api/env/route.ts: device and network I/O.
- The simulated sensor data loader, the polling timers, `Math.random`, and the random initial particles. The particles are an input to `ParticleField.StepFrame`.
- The canvas drawing itself: gradients, leaf tilt and breathing, the tap overlay, the photo export and its download link. `requestAnimationFrame` and `performance.now()` are also left out; the frame time is a parameter.
- `Math.PI`, `sin`, `cos`, `tan` and `sqrt`: kept uninterpreted in `Basics.Maths`. So `WindBlowsAway` assumes the half-turn sign law and `PixelToCmGrowsWithFov` takes the order of the tangents as its premise.
- Floating point. Numbers are exact reals, and `||` on a `NaN` speed cannot arise.
- Basics.Round1: models `toFixed(1)` on exact reals, not on the nearest binary double.
- Text.ParseInt: leading white space is not skipped, because every string the page parses starts with a digit.
- Long-press and auto-fade UI timers, the clock of src/app/main-page/page.tsx, and `document.body.style.overflow`: presentation only.
- `router.push` and `encodeURIComponent`: the navigation target is the route id in `Routes`, and the path string in `FooterNav`.
- The mis-encoded dash label for a missing reading: an opaque `NoReading` label.
- The unused `cheapest` in `NextGoal`.
- The redeem handler's `catch` branch: the simulated call cannot fail.
- Credits.PointsPage.HandleRedeem and Routes.RoutesPage.HandleStart: the awaited delay resolves at once. Another click during the delay is modelled separately, on values, by `BeginRedeem`/`FinishRedeem`, `Act` and `BalanceNeverNegative`, and by `BeginStart`/`FinishStart`.
- Credits.Act: clicks are indexed into the rendered catalogue. The stale closure, an earlier render's `points`, is not modelled; the guard reads the current balance.
- TreeMeasure.SliderValue: the range control's step of 0.02 is not modelled, only its bounds.
- Routes.FormatMinutes: defined for whole minutes only, as every catalogue duration is.
- The React effects and memo dependencies (when a value is recomputed) are not modelled. Each handler and derived value is a function of the state it reads.
