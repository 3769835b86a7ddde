# QuantLineage, verified

A Dafny model of the risk core of QuantLineage: the shock algebra of a market snapshot and the curve it feeds, the
builtin pricer, the two caches in front of pricing and of curve construction, historical and parametric risk measures,
the hierarchy of a book, the risk-run queue, and what-if edits under the request limits. Numbers are mathematical reals.

`dafny verify dfyconfig.toml` checks everything.

## What is modelled, and how

- **Caches.** `Lru` is the `OrderedDict` as a list of keys, oldest first, and a map. `PricingCache` has the class
  `CachedPricingEngine` with its fields and locked sections, for one caller at a time; `CacheProtocol` has the same
  steps taken by any number of threads, since `value` gives up its lock between the lookup and the insert.
  `CurveCache` is the memo of curve selection and its key, `CurveCacheProtocol` that memo under threads.
- **Market.** `Snapshots` stages typed shocks on the fields of a `Staging` object and ties each method to a function on
  marks; `ShockAlgebra` proves what batches do, `BatchOrder` which shocks of a batch may trade places, `VolOrder` when two
  vol shocks of one name may. `Curves` is
  interpolation and its tents, `CurveRates` and `CurveChoice` the choice between named curves, key rates and scalars, `KeyRateShocks` what
  one tenor moves, `MissedShocks` what a parallel shock misses, `Tenors` the names of maturities,
  `VolSurfaces` grids, bilinear lookup and shocks, `VolShapes` which nodes a bucket moves, `VolLookup` what a lookup returns.
- **Valuation.** `Builtin` prices the ten families on the marks each reads; `exp`, `log`, `sqrt`, the normal cdf and pdf
  come in as arbitrary functions. `Parity` relates the option formulas to each other and `PricedParity` the positions, `BlackBounds` bounds them,
  `AtForward` has their value, vega and gamma at the forward, `FxDuality` a currency option seen from its other currency,
  `PaymentLegs` the dates and discounts under caps and swaptions. `Sensitivities` sets reported Greeks against pricing the
  position again on the shocked snapshot. `ValuationKeys` says when equal cache keys mean equal values, and when not;
  `CurveOrder` what the sorted curve dictionary in the key forgets.
- **Risk.** `Quantiles`, `HistoricalVar`, `ShortfallOrder`, `EsContributions`, `FactorAttribution`, `PanelMacro`, `MarginalVar`, `MarginalSlope`,
  `HistoricalEngine`, `Drawdown`.
- **Hierarchy.** `Artifacts` sums per-trade results, `Hierarchy` is the tree as a function, `HierarchyEngine` builds it
  with the loops of the source, `NodeRisk` compares a node with the engine run on its book, `NodeIds` is the id scheme.
- **Risk runs.** `RiskRuns` has the validator, both `set_status` and the class `InMemoryRiskRunRepository`;
  `ClaimProtocol` is the database queue as a state machine of sessions, row locks, commits and rollbacks.
- **What-if.** `WhatIf` is the edits over a list and an index, `Workload` the walk over a parsed body, `WhatIfRequests`
  how a body is read and what the limits promise of the books on the way.

A Python exception is an `Err`, and the state a raising call leaves behind is part of the contract where the caller can
see it (`RiskRuns.SetRowStatus`). Clocks are parameters. The standard deviation is any non-negative number whose square is
the variance.

## Where the code does not do what one might expect

Each of these is proved, with the exact condition under which the expected statement does hold.

- Expected shortfall can fall when a loss grows: a further loss raised to the order statistic just above VaR joins the
  tail and thins it. No worse P&L can lower it exactly when every loss reaches that order statistic, floored at zero, or
  none exceeds it (`ShortfallOrder.ShortfallMonotoneExactly`; two vectors in `HistoricalVar.ShortfallNotMonotone`).
- When every scenario makes money, reported ES is zero and the contributions sum to the mean loss instead. The comment at
  `backend/app/risk/es.py:64` speaks of a tail of zeros (`EsContributions.ContributionsReconcile`).
- A parallel rate shock does not move the scalar projection rate, nor key rates stored under the upper-case spelling of the
  currency it names (`CurveRates.ParallelShockMovesZero`; a market of each kind in `MissedShocks`, one with a swap whose
  reported DV01 is zero).
- The FX delta of a currency forward is not discounted, unlike that of an option, so the approximate P&L of a spot move is
  right exactly when nothing is at stake or the base currency's discount is one (`Sensitivities.ForwardRepricedExactly`).
- The DV01 of a rate future is stated, not measured: it predicts a parallel shock exactly when that moves the rate the future
  is projected from, or nothing is at stake (`Sensitivities.IrFutureRepricedExactly`).
- A marked tenor that does not parse, such as `0Y`, can be shocked and moves nothing
  (`KeyRateShocks.UnparsedTenorMovesNothing`).
- Two vol shocks of one name need not commute. Without a surface the floor is why, and the condition is exact for every
  scalar mark, equity or FX, and any two buckets (`VolOrder.ScalarShocksCommuteExactly`). With one, it is exact node by
  node for any two shapes; two that both grow or both shift a node part only at the floor, one of each also away from it
  (`SurfaceShocksCommuteExactly`; a relative and a skew shock in `GrowthAndSkewDoNotCommute`). No other shocks of a batch
  need to keep their order (`BatchOrder.OrderOfTargetsDecides`).
- The valuation key drops the currency of futures and options and the duration of swaps, both of which are priced
  (`ValuationKeys.CurrencyMattersExactly`, `DurationMattersExactly`), and the order of curves
  (`CurveOrder.CurveOrderMattersExactly`, `SwapOrderMattersExactly`, `BondOrderMattersExactly`).
- The in-memory repository is described as mirroring the database one, but stores and returns runs the validator refuses
  (`RiskRuns.BackendsDiffer`).
- Without skip-locked, two workers can both claim and commit one run (`ClaimProtocol.ClaimedTwice`; with it none can,
  `ClaimProtocol.EveryRunIsSafe`).
- Only terminal wealth is checked to be positive. Maximum drawdown is the worst window, and stays so however the history
  goes on with positive growth, exactly when every return is above -1 (`Drawdown.WorstWindowExactly`; two returns in
  `Drawdown.NegativeWealthBreaksIt`).
- A list of positions beside the portfolio of a what-if body is what the size check counts, and the book can outgrow the
  limit exactly when that list is the shorter one (`WhatIfRequests.WithinExactly`).

## Model

| member | source | states |
|---|---|---|
| PricingCache.CachedPricingEngine.Value | backend/app/pricing/cache.py:223-250 | the answer, the store and both counters after a call: a hit touches, a miss computes and inserts, a bypass and a missing market change nothing |
| PricingCache.CachedPricingEngine.Lookup | backend/app/pricing/cache.py:229-235 | the first locked section: the entry if there is one, made newest, and one hit or one miss counted |
| PricingCache.CachedPricingEngine.Fill | backend/app/pricing/cache.py:240-250 | the second locked section: an entry stored meanwhile wins; afterwards the oldest are evicted down to maxsize |
| PricingCache.CachedPricingEngine.Evict | backend/app/pricing/cache.py:248-249 | the eviction loop leaves the newest maxsize entries |
| PricingCache.CachedPricingEngine.Clear | backend/app/pricing/cache.py:210-212 | the store is emptied and the counters stay |
| PricingCache.Replay | backend/app/pricing/cache.py:205-250 | the runs of the lemmas are the class at work: any calls and clears on a new engine leave that store and that number of hits |
| PricingCache.RunKeepsNewest | backend/app/pricing/cache.py:228-250 | after any run of calls and clears, with any engine and any keys, the cached keys are exactly the maxsize most recently used distinct keys since the clear, in that order; a use is a call that was given a value |
| PricingCache.RunKeepsRight | backend/app/pricing/cache.py:228-250 | where the key decides the value, every entry a run leaves is the engine's value of each request with its key |
| PricingCache.UsedIsPriced | backend/app/pricing/cache.py:228-250 | where requests with one key succeed or fail together, the uses of a run are the calls the engine can price, whatever the size of the cache |
| PricingCache.CachedExactly | backend/app/pricing/cache.py:228-250 | a used key is still cached if and only if fewer than maxsize other keys were used after its last use |
| PricingCache.CachedWasUsed | backend/app/pricing/cache.py:228-250 | nothing is cached that was not used since the clear |
| PricingCache.LargerCacheIncludes | backend/app/pricing/cache.py:228-250 | after the same calls, with any engine and any keys, a larger cache holds every key a smaller one does, in the same order, and has at least as many hits; the smaller is full or holds the same |
| Lru.NewestExactly | backend/app/pricing/cache.py:235-249 | a key is among the m newest of a history if and only if fewer than m distinct keys follow its last use |
| Lru.InsertKeeps | backend/app/pricing/cache.py:240-249 | an insert keeps keys and entries in step and the size within maxsize; every entry is an old one or the new one |
| CacheProtocol.EveryRunIsSafe | backend/app/pricing/cache.py:210-250 | for any interleaving of threads looking up, computing unlocked and inserting, with clears: every finished call has the engine's answer, every entry is the engine's value for its key, and the store never exceeds maxsize |
| CacheProtocol.TransparentExactly | backend/app/pricing/cache.py:223-250 | no run of any threads gives an answer that is not the engine's, if and only if keys are sound for the requests made |
| CacheProtocol.UndisturbedIsValue | backend/app/pricing/cache.py:223-250 | a thread's steps taken together are the single call of the class |
| ValuationKeys.KeyDecidesValue | backend/app/pricing/cache.py:120-155 | equal keys give equal builtin values for all ten families, when each currency has one curve a type and, for futures, options and swaps, the currency or duration agrees |
| ValuationKeys.ReorderedValue | backend/app/pricing/builtin.py:76-208 | a valuation does not depend on the order of the curve dictionary when the curves of the currency leave no choice, before and after the pricer's own bump |
| ValuationKeys.SameTradeKey | backend/app/pricing/cache.py:120-127 | one trade key means one header and the same terms, up to the settlement currency of equity families |
| ValuationKeys.PricedAlike | backend/app/pricing/builtin.py:92-156 | a cash equity is priced without its currency, and everything but a swap without a duration |
| ValuationKeys.CurrencyMattersExactly | backend/app/pricing/cache.py:125-126 | two futures or options with one trade key have one value on every market if and only if they settle in one currency |
| ValuationKeys.DurationMattersExactly | backend/app/domain/instrument_terms.py:87-95 | two swaps with the same terms have one value on every market if and only if their durations agree |
| ValuationKeys.SameContent | backend/app/domain/models.py:839-860 | equal content hashes mean the same marks, with the curve dictionary at most reordered |
| ValuationKeys.ReorderedContent | backend/app/domain/models.py:839-860 | reordering the curve dictionary leaves the content hash as it is |
| ValuationKeys.ShiftStaysClear | backend/app/domain/models.py:660-669 | a parallel shock leaves no more choice between the curves of a currency than there was |
| ValuationKeys.CacheIsTransparent | backend/app/pricing/cache.py:150-250 | in front of the builtin engine, threads, evictions and clears cannot change an answer, for requests with clear curves and one currency and duration a trade key |
| CurveOrder.ZeroIgnoresOrderExactly | backend/app/pricing/curve_rates.py:48-87 | a resolved zero is the same under every order of the curve dictionary if and only if the curves it could come from agree at that maturity |
| CurveOrder.CurveOrderMattersExactly | backend/app/pricing/cache.py:140-155 | all orders of the curves share one cache key; they price a rate future alike if and only if its possible projection curves agree at its maturity |
| CurveOrder.SwapOrderMattersExactly | backend/app/pricing/builtin.py:143-156 | all orders of the curves price a swap alike, DV01 included, if and only if the curves it could read agree at its maturity |
| CurveOrder.BondOrderMattersExactly | backend/app/pricing/builtin.py:124-141 | the same for a bond, where exp takes no value twice |
| Builtin.CapFloorComponents | backend/app/pricing/builtin.py:210-266 | the accumulating loop over optionlets returns their sum, or the first failure |
| Builtin.ResolveZero | backend/app/pricing/curve_rates.py:148-186 | the curve when one is selected, else the scalar, else the missing-data error |
| Builtin.SwapDv01 | backend/app/pricing/builtin.py:143-156 | the reported DV01 is plus or minus notional times duration times the basis point the resolved rate moved, which is one, or none where the bump does not reach the rate |
| Parity.EuropeanParity | backend/app/pricing/builtin.py:158-176 | with a symmetric cdf and any strike, call less put is worth the discounted spot less the discounted strike, their deltas differ by the discounted spot, gamma and vega agree, and they fail together |
| Parity.FxParity | backend/app/pricing/builtin.py:112-122 | with a symmetric cdf and an exp that turns sums into products, long a call and short a put on a pair is worth the FX forward at their strike |
| Parity.CapFloorParity | backend/app/pricing/builtin.py:210-263 | a cap less the floor of its strike is the strip of discounted forwards less strike, their vegas agree, and they fail alike |
| Parity.CapFloorValueParity | backend/app/pricing/builtin.py:265-271 | on any market, the reported values of a cap and the floor of its strike differ by the scaled strip and their DV01s by the strip's own change |
| Parity.SwaptionParity | backend/app/pricing/builtin.py:273-340 | on any market, the reported values of a payer and the receiver of its strike differ by scale times annuity times forward less strike, their DV01s by that amount's change, their vegas agree, and they fail alike |
| BlackBounds.PriceBounds | backend/app/pricing/builtin.py:172-175 | whatever the distribution: a call is worth at most its first leg times the chance of exercise, and at least either chance times what exercising pays; a put the same with the legs exchanged |
| BlackBounds.OptionBounds | backend/app/pricing/builtin.py:158-176 | an equity option is worth at most its delta as a call and its discounted strike as a put, and at least what its delta earns on exercise, so nothing less than zero when struck at the forward |
| BlackBounds.FxOptionBounds | backend/app/pricing/builtin.py:178-194 | the same of a currency option and its FX delta |
| BlackBounds.CapletBounds | backend/app/pricing/builtin.py:247-265 | an optionlet in or at the money is never worth less than nothing, and none is worth more than the leg it receives |
| BlackBounds.SwaptionBounds | backend/app/pricing/builtin.py:313-332 | the same of a swaption against the forward swap |
| AtForward.OptionAtForward | backend/app/pricing/builtin.py:158-176 | with exp, ln and sqrt as named: an equity option struck at the forward, call or put, is worth its leg times twice the cdf at half the total volatility, less one, with the vega of that point |
| AtForward.FxOptionAtForward | backend/app/pricing/builtin.py:178-194 | the same of a currency option |
| AtForward.CapletAtForward | backend/app/pricing/builtin.py:247-266 | the same of an optionlet over the time to its fixing |
| AtForward.SwaptionAtForward | backend/app/pricing/builtin.py:313-332 | the same of a swaption over its expiry, on its annuity |
| AtForward.VegaIsSlope | backend/app/pricing/builtin.py:175-176 | where pdf is the slope of cdf and falls: raising the vol of an option struck at the forward gains at most vega for every point, and at least the vega it then has |
| AtForward.FxVegaIsSlope | backend/app/pricing/builtin.py:193-194 | the same of a currency option |
| AtForward.SwaptionVegaIsSlope | backend/app/pricing/builtin.py:330-337 | the same of a swaption, in its reported value and vega |
| AtForward.OptionGammaVega | backend/app/pricing/builtin.py:175-176 | whatever pdf is, reported vega is reported gamma times vol, maturity and a hundredth |
| AtForward.FxGammaVega | backend/app/pricing/builtin.py:193-194 | the same of a currency option |
| FxDuality.FxDuality | backend/app/pricing/builtin.py:178-194 | the call on a pair is worth the spot times the put on the inverse pair at the inverse strike, notional and rates exchanged |
| PaymentLegs.StripCovers | backend/app/pricing/builtin.py:218-239 | periods as many as the frequency gives to the nearest whole, one at least, of one length and ending at maturity; each fixed when the one before is paid, after a day at the earliest; the vol is floored |
| PaymentLegs.FixedLegTelescopes | backend/app/pricing/builtin.py:281-317 | growth over one period less one, times the annuity of a swaption, is the accrual times the discount at expiry less that at the end of the swap |
| PaymentLegs.WeightsAreAnnuity | backend/app/pricing/builtin.py:245-265 | at one rate the optionlets of a cap are weighted as the fixed leg of a swap over its periods from today |
| PaymentLegs.StripSums | backend/app/pricing/builtin.py:233-266 | a cap or floor is priced if and only if all its optionlets are, and has the sum of their values and of their vegas |
| PricedParity.OptionPricedExactly | backend/app/pricing/builtin.py:158-176 | an equity option with its marks is priced if and only if spot and strike have one sign and the total volatility is not zero |
| PricedParity.SwaptionPricedExactly | backend/app/pricing/builtin.py:311-312 | a swaption with its marks is priced if and only if the forward is positive, and refused with that reason otherwise |
| PricedParity.CapletPricedExactly | backend/app/pricing/builtin.py:250-251 | so is an optionlet |
| PricedParity.CallAndPut | backend/app/pricing/builtin.py:76-90 | the parities hold of whole positions as the engine prices them: a call and a put of the same terms, on the marks of the snapshot |
| PricedParity.CallPutForward | backend/app/pricing/builtin.py:76-90 | a currency call and put and the forward with their strike |
| PricedParity.CapAndFloor | backend/app/pricing/builtin.py:268-271 | a cap and a floor, scaled by quantity times notional |
| PricedParity.PayerReceiver | backend/app/pricing/builtin.py:334-337 | a payer and a receiver, scaled by quantity times notional |
| Sensitivities.EquityRepriced | backend/app/pricing/builtin.py:92-97 | priced again after a spot shock, a cash equity has gained exactly the approximate P&L of its Greeks |
| Sensitivities.FutureRepriced | backend/app/pricing/builtin.py:99-110 | so has an equity future |
| Sensitivities.FutureIsCarriedSpot | backend/app/pricing/builtin.py:99-110 | a future discounted at the settlement rate is the spot discounted at the dividend yield, times quantity and multiplier |
| Sensitivities.FutureDv01IsSlope | backend/app/pricing/builtin.py:99-110 | where exp lies above its tangent, a long future gains of any move of the rate at least what its DV01 before says and at most what its DV01 after does |
| Sensitivities.ForwardRepricedExactly | backend/app/pricing/builtin.py:112-122 | a currency forward gains its FX delta times the move times the discount of the base currency, so the approximate P&L is right if and only if nothing is at stake or that discount is one |
| Sensitivities.SwapRepriced | backend/app/pricing/builtin.py:143-156 | priced again after a parallel shock of any size, a swap has gained exactly the approximate P&L of its DV01, even where the shock misses its rate |
| Sensitivities.SwapIsDv01 | backend/app/pricing/builtin.py:143-156 | its value times the move of its own bump is its DV01 times the spread of its rate over the fixed one |
| Sensitivities.IrFutureRepricedExactly | backend/app/pricing/builtin.py:196-208 | a rate future gains the approximate P&L of its DV01 if and only if the shock moves the rate it is projected from, or nothing is at stake |
| Sensitivities.IrFutureIsDv01 | backend/app/pricing/builtin.py:196-208 | its value is its DV01 for every basis point the forward stands above the quote |
| Sensitivities.BondGrowsToFace | backend/app/pricing/builtin.py:124-141 | a bond's value grown at its zero to maturity is its face, over the maturity on a curve and whole days on the scalar yield, and its DV01 is what the move of its zero takes off |
| Sensitivities.WholeDays | backend/app/pricing/builtin.py:56-62 | the day count is the nearest whole number of days, and one at least |
| Sensitivities.OptionVolRepriced | backend/app/risk/shock_units.py:81-93 | raising a scalar vol by a part of itself gains an option struck at the forward no more than the approximate P&L, which counts the move in points of the base vol, and no less than the vega it ends with says |
| VolLookup.OptionVolAtNode | backend/app/pricing/surface_vol.py:13-27 | an option for the years of a label, struck at a moneyness of a full grid times the underlying, is priced at the vol of that node |
| Tenors.SettlementCurrency | backend/app/domain/instrument_terms.py:169-200 | an equity position without a settlement currency is valued on no market, and spaces around the currency do not matter |
| Builtin.ParallelBump | backend/app/pricing/builtin.py:138-140 | the pricer's bump is the parallel shift of the currency, and fails exactly when the snapshot has no rate of it |
| Snapshots.Staging.StageRateZero | backend/app/domain/models.py:651-688 | a parallel shock moves the scalar, all key rates and all matching curves; a tenor shock that pillar alone; it fails when nothing is touched |
| Snapshots.Staging.StageShock | backend/app/domain/models.py:690-730 | one shock on the staging maps is one step on the marks, with the chained id, and fails exactly when the mark is missing or the surface is bad |
| Snapshots.Staging.StageCurves | backend/app/domain/models.py:666-682 | the loop over curves bumps the matching ones in place and reports whether any was touched |
| VolShapes.VolShockByBucket | backend/app/domain/models.py:233-253 | which nodes of a surface a vol shock moves and by how much, for every expiry and moneyness bucket, equity or FX: skew, then term, then a labelled expiry at the money, and all nodes for any other |
| VolShapes.OnlyItsName | backend/app/domain/models.py:705-724 | the vol of its name and, if of its class, its surface change, nothing else; without a surface the vol grows, floored, whatever the bucket |
| VolShapes.ScalarFollows | backend/app/domain/models.py:713-714 | the scalar vol becomes the shocked vol of the one-year node at the money, where there is one, and otherwise the mean of the nodes |
| VolShapes.GenericShock | backend/app/risk/scenarios.py:120 | the default factor of a scenario grows every node and the scalar by the amount, floored |
| VolShapes.SkewKeepsTheMoney | backend/app/market/vol_surfaces.py:160-162 | a skew leaves the nodes at the money and the scalar as they were, floored |
| VolShapes.LabelsAreTenors | backend/app/market/vol_surfaces.py:29-35 | the years of an expiry label are those the label has as a tenor |
| Snapshots.Apply | backend/app/domain/models.py:736-756 | a batch is the fold of its shocks over the marks and the id, or fails at the first shock that does |
| Snapshots.Bump | backend/app/domain/models.py:732-734 | a bump is a batch of one |
| ShockAlgebra.ApplySplit | backend/app/domain/models.py:736-756 | a batch split in two and applied in turn gives the same marks, the same id and the same failure |
| ShockAlgebra.ApplyIsBumps | backend/app/domain/models.py:736-748 | applying a batch is bumping one factor after the other |
| ShockAlgebra.OrderIrrelevant | backend/app/domain/models.py:690-730 | spot and rate shocks give the same marks in every order, or fail in every order |
| ShockAlgebra.IdChained | backend/app/domain/models.py:696-730 | a chained id is the one before, the key of the factor and, for a rate, its tenor |
| ShockAlgebra.ParallelNames | backend/app/domain/models.py:690-756 | ALL and PARALLEL, spelt so, are the tenors that move everything |
| BatchOrder.OrderOfTargetsDecides | backend/app/domain/models.py:690-756 | any rearrangement of a batch that keeps the order of the vol shocks of each name and class gives the same marks, or fails as the batch does |
| BatchOrder.NeighboursCommute | backend/app/domain/models.py:690-730 | two shocks that are not vol shocks of one name and class give the same marks in both orders, or fail in both |
| ShockAlgebra.VolShockAgrees | backend/app/domain/models.py:706-727 | after a vol shock on a name with a surface of its class, the scalar vol is the at-the-money vol of the surface |
| ShockAlgebra.AgreementStays | backend/app/domain/models.py:690-756 | and it stays so through every later batch |
| VolOrder.FlooredMovesCommute | backend/app/domain/models.py:710 | two moves of a floored scalar vol commute if and only if neither is floored, or both are and their upward parts agree, or one is and the other neither is upward nor lifts the product over the floor; for any mark |
| VolOrder.SwappableMark | backend/app/domain/models.py:710 | for a mark that is not negative: unless both are floored, neither is floored with the other upward |
| VolOrder.ScalarShocksCommuteExactly | backend/app/domain/models.py:706-727 | two equity or FX vol shocks of a name without a surface, of any expiry and moneyness buckets, give the same snapshot marks in both orders under exactly that condition |
| VolOrder.SurfaceShocksCommuteExactly | backend/app/domain/models.py:233-253 | with a surface, for any two shocks of the name, relative, single-expiry, skew or term: exactly when every node ends the same in both orders |
| VolOrder.NodeMovesCommute | backend/app/market/vol_surfaces.py:143-178 | a floored node does so if and only if: for two growths or two shifts, none takes it below the floor with the other upward; for a growth and a shift, one is nothing or both orders end at the floor, or the one that is floored leaves the other nothing to show |
| VolOrder.GrowthAndSkewDoNotCommute | backend/app/market/vol_surfaces.py:146-178 | a relative and a skew shock of a tenth take a node at 0.2 and moneyness 1.2 to 0.24 or to 0.242, by their order |
| VolOrder.GridIs | backend/app/market/vol_surfaces.py:143-178 | the grid of a shocked surface, node by node: grown or shifted from the floored vol, and floored |
| VolOrder.VolShocksDoNotCommute | backend/app/domain/models.py:706-727 | down by everything and up by everything do not commute for a name without a surface, on any snapshot and whatever its mark |
| Curves.Zero | backend/app/market/curves.py:143-156 | the scan over adjacent pillars returns linear interpolation between the two around t, flat outside, and fails for negative t |
| Curves.HatBounded | backend/app/market/curves.py:180-198 | a pillar's tent lies in [0, 1], is one at the pillar and zero from its neighbours outward |
| Curves.PillarBump | backend/app/market/curves.py:143-198 | bumping one pillar by a moves the zero at t by a times its tent |
| Curves.HatsSumToOne | backend/app/market/curves.py:143-156 | the tents sum to one at every maturity, flat ends included |
| Curves.BumpAllIsParallel | backend/app/market/curves.py:166-198 | bumping every pillar in turn is the parallel shift |
| Curves.ParallelShiftZero | backend/app/market/curves.py:166-178 | the shifted curve is valid and its zero is higher by bps / 10000 everywhere |
| Curves.KeyRateShiftZero | backend/app/market/curves.py:180-198 | a key-rate shift is accepted exactly for key tenors and moves the zero by the tents of the nodes carrying the tenor, by nothing when none does |
| Curves.TentIs | backend/app/market/curves.py:180-198 | a tenor's tent is that of the one node carrying it, or nothing |
| Tenors.UnitsAgree | backend/app/market/curves.py:38-72 | years, months, weeks and days are the units, twelve months and 365 days being a year and seven days a week |
| Tenors.KeyTenorsAreYears | backend/app/market/curves.py:25-62 | the key tenors are listed with the years their numerals give |
| CurveRates.CurveFromPayload | backend/app/pricing/curve_rates.py:22-45 | tenors that do not parse are dropped, the rest sorted by years; no curve when none is left, an error when two share a maturity |
| CurveRates.SortedNodes | backend/app/pricing/curve_rates.py:39-45 | the sorted nodes are increasing in years exactly when no two share a maturity, and are then the ordered listing of the set |
| CurveRates.SelectUncached | backend/app/pricing/curve_rates.py:48-87 | the selection loop: the preferred type first, discount next, any curve after that, key rates only without a named curve; a bad curve of the currency fails |
| CurveChoice.NamedCurveChosen | backend/app/pricing/curve_rates.py:48-80 | among the curves of a currency: the first projection curve if one is asked for, else the first discount curve, else the first of any |
| CurveChoice.CandidatesAre | backend/app/pricing/curve_rates.py:55-66 | those are the curves built from the payloads of the currency, in dictionary order, and a payload that gave none has no pillar |
| CurveChoice.BuiltAs | backend/app/pricing/curve_rates.py:22-45 | a curve has the currency, type and name of its payload and exactly one node for every tenor that parses, in order of maturity |
| CurveChoice.KeyRatesChosen | backend/app/pricing/curve_rates.py:80-88 | without one, key rates under the name as given, then in upper case, empty ones not counting |
| CurveChoice.NothingChosen | backend/app/pricing/curve_rates.py:80-88 | with neither, under either spelling, no curve is selected |
| CurveChoice.ScalarChosen | backend/app/pricing/curve_rates.py:172-186 | without either, the scalar projection rate if asked for and marked, else the scalar rate, else an error |
| CurveRates.SelectShifted | backend/app/pricing/curve_rates.py:48-87 | a parallel or one-tenor shock shifts the nodes of the selected curve that carry the tenor, except on a curve built from key rates stored under the upper-case name |
| CurveRates.ParallelShockMovesZero | backend/app/pricing/curve_rates.py:148-186 | a parallel shock of a moves the resolved zero by exactly a at every maturity on the curve, key-rate and scalar paths, and not at all on the scalar projection path |
| CurveRates.OtherCurrenciesStay | backend/app/domain/models.py:651-688 | no rate shock of one currency moves a resolved zero of another |
| KeyRateShocks.TenorShockMovesZero | backend/app/domain/models.py:671-688 | a shock of one tenor moves the resolved zero of its currency, at every maturity and on every path, by the shock times the tent of the tenor on the selected curve |
| KeyRateShocks.TentAtIs | backend/app/domain/models.py:671-688 | that tent is the hat of the node carrying the tenor, and zero when no node does or the tenor does not parse |
| KeyRateShocks.UnparsedTenorMovesNothing | backend/app/pricing/curve_rates.py:31-36 | shocking a tenor that the curve drops leaves every resolved zero as it was |
| KeyRateShocks.EveryTenorIsParallel | backend/app/risk/sensitivities.py:185-195 | shocking every tenor of the selected curve in turn goes through and moves the resolved zero by exactly the shock at every maturity, as a parallel shock does |
| MissedShocks.UpperCaseKeyRatesMissed | backend/app/domain/models.py:660-669 | with key rates under USD and a rate under usd, a swap in usd is priced from the key rates and reports a DV01 of zero |
| MissedShocks.ProjectionRateMissed | backend/app/domain/models.py:660-669 | a rate future priced from the scalar projection rate has the same forward and value after any parallel shock |
| CurveCache.KeyDecides | backend/app/pricing/curve_cache.py:40-67 | equal curve keys select equal curves, when each currency has one curve of the preferred type |
| CurveCache.OrderIgnoredExactly | backend/app/pricing/curve_rates.py:48-87 | selection is independent of the dictionary's order if and only if the candidates of the returned type are all the same curve |
| CurveCache.CurveConstructionCache.SelectYieldCurve | backend/app/pricing/curve_rates.py:90-123 | the memoised selection returns the uncached one after any calls and evictions, and counts one hit or miss |
| CurveCache.CurveConstructionCache.Get | backend/app/pricing/curve_cache.py:95-103 | the entry if there is one, made newest, and one hit or miss counted |
| CurveCache.CurveConstructionCache.Put | backend/app/pricing/curve_cache.py:105-115 | an entry already there wins and becomes newest; afterwards the oldest are evicted down to maxsize |
| CurveCache.CurveConstructionCache.Clear | backend/app/pricing/curve_cache.py:89-93 | the store is emptied and, unlike the pricing cache, so are the counters |
| CurveCacheProtocol.ThreadsGetTheirCurves | backend/app/pricing/curve_rates.py:112-123 | for any interleaving of threads between get, building and put, with clears and evictions, every thread gets the curve it would have built, for plain markets |
| CurveCacheProtocol.OrdersTransparentExactly | backend/app/pricing/curve_rates.py:112-123 | with one market arriving in any order of its curves, that holds if and only if its curves of the preferred type leave no choice |
| CurveCache.OtherShocksKeepKey | backend/app/pricing/curve_cache.py:40-67 | any batch of spot and vol shocks leaves every curve key as it was |
| CurveCache.RateShockChangesKey | backend/app/pricing/curve_cache.py:40-67 | any rate shock of the currency that goes through, parallel or of one tenor, changes the key, so no stale curve is served |
| VolSurfaces.FromGrid | backend/app/market/vol_surfaces.py:67-85 | the points are the grid's nodes in order of maturity and moneyness, floored; unknown labels and an empty grid fail |
| VolSurfaces.ShockedGrid | backend/app/market/vol_surfaces.py:143-178 | every node of a shocked surface is the shocked vol of that node, floored |
| VolSurfaces.ShockedNodes | backend/app/market/vol_surfaces.py:168-178 | a shock adds no node |
| VolSurfaces.RoundTrip | backend/app/market/vol_surfaces.py:180-228 | a surface written to its payload and rebuilt is the same surface |
| VolSurfaces.VolBounded | backend/app/market/vol_surfaces.py:97-141 | an interpolated vol never leaves the range of the surface's nodes |
| VolLookup.VolIsBilinear | backend/app/market/vol_surfaces.py:97-141 | on a full surface, inside a cell and on its edges, the lookup is the function linear in years, in moneyness and in their product that has the vols of the four corners |
| VolLookup.VolAtNode | backend/app/market/vol_surfaces.py:115-141 | at a node it is the vol of the node |
| VolLookup.VolAtGridNode | backend/app/market/vol_surfaces.py:66-141 | built from a full grid, it is the floored vol of the grid there |
| VolLookup.VolFlatOutside | backend/app/market/vol_surfaces.py:104-105 | beyond either end of an axis it is the lookup at that end |
| Quantiles.OrderStatistic | backend/app/risk/historical.py:581-585 | the k-th of ordered observations is at most x if and only if more than k observations are |
| Quantiles.SortedDominates | backend/app/risk/historical.py:581-585 | sorting keeps pointwise dominance |
| Quantiles.QuantileImage | backend/app/risk/historical.py:581-585 | the interpolated quantile commutes with increasing affine maps |
| Quantiles.QuantileReached | backend/app/risk/es.py:61-63 | some observation reaches the quantile |
| Quantiles.QuantileCounts | backend/app/risk/hierarchy.py:221-223 | more than q (n - 1) observations are at most the q-quantile, and fewer than one more are below it |
| Quantiles.EvenQuantile | backend/app/risk/hierarchy.py:221-223 | of evenly spaced observations it is the point at that share of the way |
| HistoricalVar.VarEsOrdered | backend/app/risk/hierarchy.py:202-226 | 0 <= VaR95 <= VaR99 <= ES99, and ES99 is at most the worst loss floored at zero |
| HistoricalVar.VarLevels | backend/app/risk/hierarchy.py:218-225 | of n losses, more than 95 (99) per cent of n - 1 are at most VaR95 (VaR99), and fewer than one more are below it where it is not floored |
| HistoricalVar.VarEsPermuted | backend/app/risk/hierarchy.py:202-226 | the order of the scenarios does not matter |
| HistoricalVar.VarEsScaled | backend/app/risk/hierarchy.py:202-226 | c times the P&L has c times the VaR and ES, for positive c |
| HistoricalVar.VarMonotone | backend/app/risk/hierarchy.py:221-223 | if no scenario gets better, neither VaR falls |
| ShortfallOrder.ShortfallMonotoneExactly | backend/app/risk/hierarchy.py:221-225 | no P&L that is nowhere better has a lower ES, if and only if every loss reaches the sorted loss at the position of VaR99 rounded up, floored at zero, or none exceeds it |
| ShortfallOrder.ShortfallAbove | backend/app/risk/hierarchy.py:224-225 | ES exceeds that order statistic if and only if some loss does |
| ShortfallOrder.UpperTail | backend/app/risk/hierarchy.py:223-224 | the losses that reach the interpolated VaR99 are those that reach the order statistic above it |
| HistoricalVar.ShortfallMonotone | backend/app/risk/hierarchy.py:224-225 | for one pair of P&L vectors: if no scenario gets better and the tail is no wider, ES does not fall |
| HistoricalVar.ShortfallNotMonotone | backend/app/risk/hierarchy.py:224-225 | two P&L vectors, one nowhere better, whose ES is 5.5 and then 4: ties at VaR widen the tail |
| HistoricalVar.TailEmpty | backend/app/risk/hierarchy.py:224-225 | the tail is empty if and only if every scenario makes money |
| EsContributions.ContributionsSum | backend/app/risk/es.py:69-96 | however the book's P&L is split, the components sum to the tail mean of the whole |
| EsContributions.ContributionsReconcile | backend/app/risk/es.py:57-96 | components sum to portfolio ES if and only if some scenario does not make money; otherwise ES is zero and the gap is minus the mean loss |
| EsContributions.MaskReached | backend/app/risk/es.py:61-65 | the floored VaR is reached by some scenario if and only if some scenario does not make money |
| EsContributions.EsAgrees | backend/app/risk/es.py:57-68 | the VaR and portfolio ES beside the contributions are the VaR99 and ES99 of the engine and the hierarchy, for any losses |
| EsContributions.RollUp | backend/app/risk/es.py:281-289 | the += into zero vectors gives every label the sum of its positions' P&L, and no label twice |
| EsContributions.RollupReconciles | backend/app/risk/es.py:281-292 | components by book, desk or strategy have the same sum as components by position |
| FactorAttribution.AggregateFactorPnlFromPanel | backend/app/risk/es.py:141-166 | the loops over dates, positions and factors give each family the sum of its factors' moves; they fail exactly when a column is missing |
| FactorAttribution.FamiliesSumToPositions | backend/app/risk/es.py:141-166 | date by date the four families add up to the positions' own panel P&L |
| FactorAttribution.AggregateFactorPnlLinear | backend/app/risk/es.py:115-138 | the loop over positions gives each family the sum of the positions' terms, date by date |
| FactorAttribution.MacroFamiliesSum | backend/app/risk/es.py:115-138 | on the shared history the four families of a book add up to its trades' approximate P&L and to that of its summed Greeks |
| PanelMacro.ColumnsExactly | backend/app/risk/factor_panel.py:123-129 | two factors read one column of a panel if and only if they are one factor, or vol factors of one name, whatever their buckets |
| PanelMacro.FamilyIsMacro | backend/app/risk/es.py:143-167 | where a position's columns show one shared move, each family earns on the panel what the shared split gives it, once for every factor it has |
| PanelMacro.PanelMatchesShared | backend/app/risk/historical.py:352-418 | so a position with one factor of each kind has the approximate P&L of the shared history, LINEAR and DELTA_GAMMA |
| PanelMacro.FamilyReadsItsGreeks | backend/app/risk/es.py:101-112 | what a family earns on a position depends on no Greek but its own: delta and gamma, vega, DV01, FX delta |
| PanelMacro.NoExposureNoPnl | backend/app/risk/es.py:115-140 | a book without Greeks of a family earns nothing from it, on its panel or on the shared history |
| PanelMacro.NoExposureNoSeries | backend/app/risk/es.py:143-167 | so its whole series of that family is zero |
| FactorAttribution.InteractionReconciles | backend/app/risk/es.py:169-219 | families and interaction add up to the jointly revalued P&L, and their ES components to its ES tail mean |
| MarginalVar.ComponentsSumToVar | backend/app/risk/marginal_var.py:40-52 | components of the parametric VaR add up to it, whatever the positions |
| MarginalVar.ComponentsOfAnyVar | backend/app/risk/marginal_var.py:40-52 | components of any given value add up to it if and only if it is zero, or positive over a book of positive variance |
| MarginalVar.ComponentIsMarginal | backend/app/risk/marginal_var.py:40-67 | component and marginal coincide if and only if VaR is z sigma or the position is uncorrelated with the book |
| MarginalVar.MarginalsSumToVar | backend/app/risk/marginal_var.py:55-76 | the marginals against the summed book add up to z sigma, for a z of either sign |
| MarginalVar.MarginalBounded | backend/app/risk/marginal_var.py:55-67 | a marginal lies between minus and plus z times the position's own deviation |
| MarginalSlope.MarginalIsSlope | backend/app/risk/marginal_var.py:55-67 | moving the position's weight by w changes z sigma by at least w times the marginal and at most that plus z w squared times the position's variance over two sigma, so the marginal is the slope |
| MarginalSlope.VarianceMoves | backend/app/risk/marginal_var.py:55-67 | the variance of the book with the weight moved by w is the variance plus 2 w times the covariance plus w squared times the position's variance |
| MarginalVar.DiversificationBound | backend/app/risk/marginal_var.py:70-76 | the deviation of the book is at most the sum of the positions' own |
| MarginalVar.CovCauchySchwarz | backend/app/risk/marginal_var.py:40-67 | the sample covariance squared is at most the product of the variances |
| MarginalVar.CovIs | backend/app/risk/marginal_var.py:48-51 | n - 1 times the sample covariance is the sum of products less the sum of one series times the mean of the other |
| HistoricalEngine.KernelAggregates | backend/app/compute/kernel.py:113-127 | the nested sum over exposures is one shock of the aggregated Greeks |
| HistoricalEngine.KernelMatchesArrays | backend/app/risk/historical.py:112-263 | the kernel path and the array path of the approximate series agree at every scenario |
| HistoricalEngine.TradesAggregate | backend/app/risk/historical.py:185-308 | summing per-trade vectors is the vector of the summed Greeks, for LINEAR and DELTA_GAMMA |
| HistoricalEngine.ApproximatePositionPnlsFromPanel | backend/app/risk/historical.py:374-418 | the nested loops fill each position's row with the moves of its own columns; they fail exactly for full revaluation or a missing column |
| Drawdown.MaxDrawdownIsWorstWindow | backend/app/risk/historical_analytics.py:475-477 | with positive wealth, maximum drawdown is the worst compounded return over all windows of all lengths, capped at zero |
| Drawdown.DrawdownIsWindow | backend/app/risk/historical_analytics.py:475-476 | a drawdown is zero or the compounded return of the window since the peak |
| Drawdown.DrawdownsInRange | backend/app/risk/historical_analytics.py:475-476 | no drawdown is positive; all are above minus one if and only if wealth stays positive |
| Drawdown.WorstWindowExactly | backend/app/risk/historical_analytics.py:453-477 | for a history of positive terminal wealth, maximum drawdown is the worst window of it and of every continuation with positive growth, if and only if every return is above -1 |
| Drawdown.PositiveExactly | backend/app/risk/historical_analytics.py:452-455 | wealth stays positive if and only if every growth factor is positive |
| Drawdown.NegativeWealthBreaksIt | backend/app/risk/historical_analytics.py:453-477 | returns of -2 and -3 pass the terminal check and have a window worse than the maximum drawdown |
| Artifacts.MergeStress | backend/app/risk/trade_artifacts.py:83-90 | every scenario's P&L in the merged map is the sum of the two, absent ones counting as zero |
| Artifacts.AddArtifact | backend/app/risk/trade_artifacts.py:181-200 | adding one trade to a running sum keeps it the total of the trades so far, and fails exactly when the histories cannot be added |
| Artifacts.SumArtifacts | backend/app/risk/hierarchy.py:156-167 | the loop gives the totals of value, Greeks, stress and history, none for no positions, and fails exactly for a missing trade or mixed histories |
| Artifacts.NodeMetrics | backend/app/risk/hierarchy.py:416-448 | a node's metrics are those totals with VaR and ES of the summed history |
| Artifacts.MetricsPermuted | backend/app/risk/hierarchy.py:156-246 | a node's metrics do not depend on the order its positions were gathered in |
| Hierarchy.ChildrenPartition | backend/app/risk/hierarchy.py:519-700 | every position of a node is gathered in exactly one of its children |
| Hierarchy.NodeIsSumOfChildren | backend/app/risk/hierarchy.py:416-448 | value, each Greek, each scenario's stress P&L and each date's P&L of a node are the sums over its children |
| Hierarchy.NumbersAdditive | backend/app/risk/hierarchy.py:449-473 | in the built tree, value and Greeks of a node are the sums of its child nodes' |
| Hierarchy.StressAdditive | backend/app/risk/hierarchy.py:229-246 | in the built tree, each scenario's P&L of a node is the sum of its child nodes' |
| Hierarchy.LeavesAre | backend/app/risk/hierarchy.py:519-700 | the trade leaves under a node are its positions, each once |
| Hierarchy.EveryTradeOnce | backend/app/risk/hierarchy.py:504-716 | the tree puts every position of the book in exactly one trade leaf |
| HierarchyEngine.GroupPositions | backend/app/risk/hierarchy.py:519-524 | the groups are exactly the desk, strategy and book triples that have positions, each with its positions in the order of the portfolio |
| HierarchyEngine.BuildBelow | backend/app/risk/hierarchy.py:529-683 | the loops below a label return the subtree of that label and gather its positions |
| HierarchyEngine.Build | backend/app/risk/hierarchy.py:504-716 | the whole build returns the tree, and fails exactly when an artifact is missing or the histories cannot be added |
| HierarchyEngine.CollectScenarios | backend/app/risk/hierarchy.py:170-181 | every scenario listed by some position and no other, each once, and none before one that is listed earlier |
| HierarchyEngine.SharedScenarios | backend/app/risk/hierarchy.py:170-181 | artifacts that list the same scenarios give every non-empty slice those scenarios |
| HierarchyEngine.NodeMatchesRiskAt | backend/app/risk/hierarchy.py:475-502 | risk_at for any reference to a node, the firm among them and whether or not it names firm and portfolio, gives the node's id, level, path and metrics, for artifacts listing the same scenarios below the portfolio |
| NodeIds.SegReversible | backend/app/risk/hierarchy_placement.py:13-15 | an escaped label can be read back and contains no separator |
| NodeIds.NodeIdInjective | backend/app/risk/hierarchy_placement.py:18-44 | equal ids have equal levels and equal labels, whatever the strings, absent labels counting as empty |
| NodeRisk.HistoryIsTotal | backend/app/risk/hierarchy.py:156-167 | the history of a node is the plain sum of its trades' vectors |
| NodeRisk.NodeMatchesAggregated | backend/app/risk/historical.py:534-600 | a node's VaR and ES are those of the engine run on its book with aggregated Greeks, for LINEAR and DELTA_GAMMA |
| NodeRisk.NodeMatchesPanel | backend/app/risk/historical.py:534-600 | and those of the engine run on its book with the per-factor panel |
| RiskRuns.SetRowStatus | backend/app/persistence/sqlalchemy_repos.py:245-271 | the row updates, field by field, leave the in-memory transition checked by the validator, every field as it should be after the change; a failure without a reason leaves a dirty row with the old error |
| RiskRuns.TransitionMoves | backend/app/persistence/memory_repos.py:174-211 | every change but a failure without a reason goes through and sets each field: a start once set stays, a first start is now or the creation of a run that ends unstarted, the end is now exactly for an ended run, the error is the given, none or the old one, and nothing else changes |
| RiskRuns.ValidIsReachable | backend/app/domain/models.py:1550-1592 | the validator accepts a run with a valid header if and only if it is freshly queued, or started, or started and ended with a clock that did not run back |
| RiskRuns.StartedMoves | backend/app/persistence/sqlalchemy_repos.py:346-352 | a claimed run starts at the clock of its claim and keeps everything else |
| RiskRuns.BlankExactly | backend/app/persistence/memory_repos.py:196-197 | a text is blank if and only if it is nothing but space |
| RiskRuns.TransitionValidExactly | backend/app/persistence/memory_repos.py:174-211 | from a valid run and a monotone clock, set_status stores a valid run if and only if it goes to RUNNING from QUEUED or RUNNING without an error, to COMPLETED, to FAILED with a reason, or QUEUED to QUEUED |
| RiskRuns.RowTransitionReturnsExactly | backend/app/persistence/sqlalchemy_repos.py:245-271 | the database call returns on exactly those transitions, with the run the other backend stores |
| RiskRuns.BackendsDiffer | backend/app/persistence/memory_repos.py:202-211 | on every other transition the database call fails, while the in-memory one stores and returns an invalid run unless a failure gave no reason |
| RiskRuns.ClockMatters | backend/app/domain/models.py:1568-1570 | a completed run is valid if and only if the clock did not run backwards past its start |
| RiskRuns.StoreValidExactly | backend/app/persistence/memory_repos.py:174-211 | a store of valid runs stays one if and only if the transition is allowed |
| RiskRuns.InMemoryRiskRunRepository.Create | backend/app/persistence/memory_repos.py:165-172 | a new id is stored with no payloads, a used one refused and nothing changed |
| RiskRuns.InMemoryRiskRunRepository.SetStatus | backend/app/persistence/memory_repos.py:174-211 | the stored run becomes its transition, moved field by field as a status change moves it; a refused failure and an unknown id change nothing |
| RiskRuns.InMemoryRiskRunRepository.AddResult | backend/app/persistence/memory_repos.py:222-235 | the payload of the type is replaced, its reference gets the next id at the end of the list, and a store of valid runs stays one |
| RiskRuns.InMemoryRiskRunRepository.ListByStatus | backend/app/persistence/memory_repos.py:250-263 | the first limit runs of a status by created_at and id |
| RiskRuns.InMemoryRiskRunRepository.ClaimQueued | backend/app/persistence/memory_repos.py:265-281 | the first limit queued runs by created_at and id are moved to RUNNING, all others stay, and the store stays valid |
| RiskRuns.SortRuns | backend/app/persistence/memory_repos.py:262 | sorting by created_at and id lists the runs of a set in the queue's order |
| RiskRuns.WithRefOnce | backend/app/persistence/memory_repos.py:230-233 | afterwards the new reference is the only one to its type |
| RiskRuns.StartedValid | backend/app/persistence/memory_repos.py:278-280 | claiming any queued runs of a valid store leaves it valid |
| ClaimProtocol.EveryRunIsSafe | backend/app/persistence/sqlalchemy_repos.py:325-356 | under skip-locked claiming, for any workers, submissions, status changes, commits and rollbacks: no run is in two committed claims, no two open transactions hold one run, and every committed run is valid |
| ClaimProtocol.ClaimTakesOldest | backend/app/persistence/sqlalchemy_repos.py:331-345 | a claim takes as many eligible runs as its limit allows and none younger than one it leaves |
| ClaimProtocol.ClaimedTwice | backend/app/persistence/sqlalchemy_repos.py:326-330 | without skipping locked rows two workers claim and commit the same run |
| WhatIf.ApplyWhatIfChanges | backend/app/risk/incremental_var.py:62-105 | the list and index edited together give the index-free fold of the changes, and unique ids |
| WhatIf.ApplyChange | backend/app/risk/incremental_var.py:70-103 | one change gives the index-free edit, or its error, and the index stays the exact inverse of the list |
| WhatIf.BuildIndex | backend/app/risk/incremental_var.py:68 | the dictionary of enumerated ids is the exact inverse of the list |
| WhatIf.WithoutAt | backend/app/risk/incremental_var.py:86-87 | with unique ids, removing by id drops exactly the position at its index |
| WhatIf.StepLands | backend/app/risk/incremental_var.py:73-101 | an addition lands at the end, a removal and a modification at the one position the change names, and the others keep their order |
| WhatIf.StepKeepsUnique | backend/app/risk/incremental_var.py:73-101 | every change that goes through, renames included, leaves the ids unique |
| WhatIf.StepChangesIds | backend/app/risk/incremental_var.py:73-101 | an add holds one id more, a remove one less, a modify swaps the target's id for the new one |
| WhatIf.AddThenRemove | backend/app/risk/incremental_var.py:73-88 | removing what was added gives the book back |
| WhatIf.ModifyBack | backend/app/risk/incremental_var.py:89-101 | a modification, renaming or not, is undone by modifying back |
| WhatIf.EditSize | backend/app/risk/incremental_var.py:70-103 | a book grows by at most the number of adds that carry a position |
| Workload.WalkStack | backend/app/api/workload.py:126-139 | the stack loop reports the first refusal in the order of a recursive walk that takes the last child first |
| Workload.EnforceParsedPayload | backend/app/api/workload.py:142-166 | the limit on a top-level list, then the walk over all objects |
| Workload.PassesExactly | backend/app/api/workload.py:126-166 | a body passes if and only if no node on any path is deeper than 64 and no object on any path is over a limit |
| Workload.BodyFits | backend/app/api/workload.py:126-166 | in terms of the body itself: nothing deeper than 64, no list of positions or scenarios over its own limit, no changes that add too many to the book they go with, and no top-level list over the scenario limit |
| Workload.RefusalTells | backend/app/api/workload.py:142-166 | a refusal names the limit, and an amount over it, of something that stands in the body |
| WhatIfRequests.SameAdditions | backend/app/api/workload.py:100-110 | the count over the parsed changes is the number of changes that add a position |
| WhatIfRequests.BookStaysWithin | backend/app/api/workload.py:158-166 | a what-if request that passed never makes a book over max_positions after any number of its changes, unless a shorter list of positions stands beside the portfolio |
| WhatIfRequests.WithinExactly | backend/app/api/workload.py:113-123 | for a portfolio of positions as they are sent, a list of positions beside it leaves the limit in force for all changes and limits if and only if it has at least as many; with fewer, adding one cash equity breaks it |
| WhatIfRequests.EquityReads | backend/app/domain/models.py:290-299 | the written cash equity with its defaults left out is read as that position |

## Left out

- QuantLib, the native kernel, routers, authentication, persistence schemas, data sets and configuration flags: foreign code and wiring.
- Rounding, overflow, NaN and infinities of floating point, and the finiteness checks against them: numbers are reals.
- exp, log, sqrt, the normal cdf and pdf: arbitrary functions, of which each theorem asks no more than it names: a symmetric or monotone cdf between zero and one, a pdf that is its falling slope, an exp that is positive, multiplicative, convex or injective, an ln and a sqrt that are its inverse and a root. The normal law itself is not used, so no bound below by the intrinsic value and no delta as a slope.
- SHA-256 and JSON: a hash is its payload, so hashes are equal exactly when payloads are.
- Payload details: the string form of vol grid keys, a missing as opposed to an empty `zeros` of a curve, extra keys of surface and curve payloads, and the defaults filled in by Pydantic.
- Deep copies and freezing: snapshots and runs are values here, so that a copy handed out cannot be changed by its receiver is not shown.
- Strings.Upper: covers ASCII letters only, as does stripping; unusual numerals in tenors (exponents, underscores, signs, inf, nan) are read as not parsing.
- Bootstrap of curves, curves from zero dictionaries, the diff of two snapshots, and binding a run to a snapshot.
- Full revaluation itself: its joint P&L enters as an arbitrary vector, which is all that the interaction residual needs.
- Which factors a position requires: the assignment is a parameter of the panel computations.
- HierarchyEngine.Build: the four written-out loops are one recursive method on the label prefix; limits and concentration on nodes are not part of it.
- Artifacts.NodeMetrics: a node's limits and concentration are left out; they are single-branch classifications of the metrics.
- The order of contributions by size and their percentages; the waterfalls, dashboards and seeding.
- CacheProtocol.EveryRunIsSafe: each locked section is one step, so a thread stopped inside a lock is not modelled; hits and misses are counted in the single-caller class only.
- ClaimProtocol.EveryRunIsSafe: row locks and visibility are those of PostgreSQL at read committed; deadlocks, timeouts and other isolation levels are not modelled, and a status change is committed in one step.
- HistoricalVar.ShortfallMonotone: a tail no wider is sufficient for one pair of vectors, not necessary; the exact condition on a single book is ShortfallOrder.ShortfallMonotoneExactly.
- CurveOrder.CurveOrderMattersExactly: exact for rate futures, swaps and bonds, which read one zero; caps, floors and swaptions read several through the normal cdf, of which nothing is assumed, and for them curves that leave no choice are shown to be sufficient.
- ValuationKeys.KeyDecidesValue: the pricing configuration in the key is fixed to one engine, and QuantLib's use of the calendar date is not modelled.
- WhatIf.ApplyWhatIfChanges: that the given portfolio is not mutated holds here because lists are values.
- WhatIfRequests.BookStaysWithin: numbers written as text, which Pydantic would convert, are not read.
- The byte limit on request bodies: a running total over a stream, outside the parsed walk.
