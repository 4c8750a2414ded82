# Verification of the power-management, radar and PMU code

A Dafny model of the parts of this repository whose correctness spans several functions or
whole runs, with proofs. Each module follows one source file or one pair of files that must
agree. Code that updates state is modelled as methods on classes and arrays, with loops where
the source has loops; each method is proved against a specification function, and the results
about runs are lemmas over those functions.

| file | models |
|---|---|
| Soc.dfy | core supply, clock path, HF0 divider and RRAM mode as a machine of primitive actions; the frequency envelope |
| HfDivider.dfy | the HF0-divider strategy and `pm_switch_to` over it |
| PllRetune.dfy | the PLL-retune strategy with its SysPm callbacks, status latches, phase log and console |
| PhaseLog.dfy | the per-transition cycle log |
| Console.dfy | the raw SCB2 transmit path with its FIFO and shift register |
| SecureSplit.dfy | app 07: non-secure power manager, PSA call, secure partition, SRAM trims |
| CommandLoop.dfy | the capture script's command sequence driving the power manager |
| Lfsr.dfy | the radar sensor's test-word generator |
| RadarRegs.dfy | the radar driver's SPI commands, configuration and SFCTL fields |
| RadarStream.dfy | FIFO unpacking, packet building and the acquisition loop |
| RadarLoss.dfy | the receiver's loss counter against the frames really lost |
| RadarHost.dfy | UDP receiver, raw file, loader, and the path from FIFO to loaded frames |
| Capture.dfy | GPIO segmentation, pulse and idle labels, the post-processor's buckets |
| Pmu.dfy | the PMU driver: bit fields, P-state table, initialization |
| Wifi.dfy | the Wi-Fi reconnect state machine |
| Wrappers.dfy | optional values |

`dafny verify dfyconfig.toml` checks everything.

## What is assumed, and where

Drivers and hardware that the repository does not contain enter as parameters, so that every
theorem quantifies over their behaviour. These are the contracts:

- Clock path (PllRetune): while a PLL is off or unlocked the path carries some frequency of at
  most 50 MHz; a PLL that misses the lock timeout may take the path over later, which counts as
  its taking it over at once.
- `Cy_SysPm_SystemEnter*` (HfDivider, PllRetune): runs BEFORE, walks the supply one level at a
  time, then runs AFTER; it may stop anywhere, between the last level and AFTER too, and has
  the last word on its status. That a
  failure leaves the supply at the source level is `SupplyHeld`, a hypothesis of
  `HfDivider.RunInSpec` and `HfDivider.FinalStateIsLastTarget` only; `HfDivider.RunInSpecIff`
  says exactly what happens without it.
- `Cy_SysPm_CoreBuckStatus` (SecureSplit): the same contract, a hypothesis of
  `SecureSplit.RunsAreSafe` only; `SecureSplit.RunInSpecIff` does without.
- `psa_call` (SecureSplit): reports errors of its own before the handler runs, not after it;
  `NoneLate`, again a hypothesis of `SecureSplit.RunsAreSafe` only.
- `printk` (PllRetune): puts its text into the FIFO of the traces, LF as CR LF, before it
  returns; the texts are arbitrary.
- SCB2 (Console): between two polls the shift register makes at least one step.
- Sensor (RadarRegs): a failed SPI transfer leaves its registers alone; a software reset leaves
  any contents; starting frames and the reset of the frame state machine change MAIN only.
- PMU block (Pmu): DVFSCTRL, DVFSPSTATEREQ and the ten table entries keep what is written; the
  ERROR bit clears where a one is written; voltage and frequency are read-only and the rest of
  the window is reserved, as in the register definition.
- Wi-Fi stack and kernel (Wifi): a result event answers a request in flight, and a station that
  was associated reports its disconnection; event handlers run one at a time; giving the
  semaphore hands it to a blocked waiter, and resetting it sends the waiter away with -EAGAIN.

## Where code and documentation disagree

The model follows the code.

- The secure partition returns -6 with the remark `-EIO`; -EIO is -5 elsewhere.
- power_manager.h gives 400/160/100 MHz as the final PLL targets in one place; the code uses
  200/80/50 MHz, as the table in the same header does.
- The loader's comments promise samples in [-1, 1]; removing the mean can take them up to 2.
  `RadarHost.CentredInRangeIff` says exactly when it does not.
- The PMU binding says that init-pstate is written after DVFS is enabled; the driver writes it
  before, which is what `Pmu.EnabledOnlyWhenReady` needs.
- The PMU binding takes 32-bit cells for the P-state table and the counts; the driver cuts
  them to 16 and 8 bits without a word. `Pmu.DevicetreeHonouredIff` says exactly when nothing is lost.

The test-word comment's polynomial x^12 + x^11 + x^10 + x^4 + 1 is no disagreement: it is the
reciprocal of the step's characteristic polynomial x^12 + x^8 + x^2 + x + 1.

## Model

| member | source | states |
|---|---|---|
| Soc.ThroughoutMeansEveryPrefix | apps/06_pse84_m33_s_shell_ulp_lp_hp/src/power_manager.h:30-42 | "In spec throughout" is "in spec after every prefix of the hardware calls", which is how every safety row below is to be read |
| Soc.ClimbArrives | apps/06_pse84_m33_s_shell_ulp_lp_hp/src/power_manager.c:81-98 | The supply walk of SystemEnter*, one level at a time, ends at the target and changes nothing else |
| Soc.Board.StepVoltage | apps/06_pse84_m33_s_shell_ulp_lp_hp/src/power_manager.c:81-98 | A walk cut short after any number of levels leaves the supply where that prefix of the walk does |
| HfDivider.Switcher.Lower | apps/06_pse84_m33_s_shell_ulp_lp_hp/src/power_manager_hf0_divider.c:72-153 | The three downward helpers: divider first, then supply, then RRAM; on failure the source divider is restored and nothing is logged |
| HfDivider.Switcher.Raise | apps/06_pse84_m33_s_shell_ulp_lp_hp/src/power_manager_hf0_divider.c:155-235 | The three upward helpers: supply, RRAM, divider last; on failure nothing has changed but the supply |
| HfDivider.Switcher.SwitchTo | apps/06_pse84_m33_s_shell_ulp_lp_hp/src/power_manager.c:118-176 | Exact hardware call sequence, return code, new software mode and phase log of every request, valid or not |
| HfDivider.ReturnCodes | apps/06_pse84_m33_s_shell_ulp_lp_hp/src/power_manager.c:118-158 | 0, -EINVAL and -EIO, each exactly when |
| HfDivider.DividerIsTheSmallest | apps/06_pse84_m33_s_shell_ulp_lp_hp/src/power_manager_hf0_divider.c:72-235 | Of all integer dividers a mode's own is the smallest that keeps 200 MHz within the mode's ceiling |
| HfDivider.SuccessRunsFastest | apps/06_pse84_m33_s_shell_ulp_lp_hp/src/power_manager_hf0_divider.c:72-235 | From any state on the 200 MHz path a successful switch ends at 200, 66 2/3 or 50 MHz, the fastest that an integer divider allows in its mode |
| HfDivider.CallFromHome | apps/06_pse84_m33_s_shell_ulp_lp_hp/src/power_manager_hf0_divider.c:72-274 | From a mode's home state a call is in spec at every step if and only if it is not a failed step down that moved the supply; it ends at the home of the reported mode if and only if no failed step moved it |
| HfDivider.RunInSpec | apps/06_pse84_m33_s_shell_ulp_lp_hp/src/power_manager_hf0_divider.c:72-274 | Over every run with SystemEnter* keeping its contract, 200 MHz / divider is at most the live ceiling at every step, and divider, supply, RRAM mode and s_current_mode agree between calls |
| HfDivider.CallInSpecIff | apps/06_pse84_m33_s_shell_ulp_lp_hp/src/power_manager_hf0_divider.c:72-274 | From any state in spec with the divider of the mode, wherever earlier failures left the supply, a call leaves the envelope at some step if and only if it is a failed step down that ends below that mode |
| HfDivider.RunInSpecIff | apps/06_pse84_m33_s_shell_ulp_lp_hp/src/power_manager_hf0_divider.c:72-274 | Every step of every run is in spec exactly when no call of the run is such a step, with nothing assumed of SystemEnter* |
| HfDivider.ZeroMeansThereIff | apps/06_pse84_m33_s_shell_ulp_lp_hp/src/power_manager_hf0_divider.c:72-274 | A call that returns 0 leaves the supply at the requested level, unless it names s_current_mode while the supply is elsewhere |
| HfDivider.FinalStateIsLastTarget | apps/06_pse84_m33_s_shell_ulp_lp_hp/src/power_manager_hf0_divider.c:243-274 | Path independence from boot, SystemEnter* keeping its contract: the whole hardware state follows from the last target reached, however it was reached |
| HfDivider.ModeIsLastTarget | apps/06_pse84_m33_s_shell_ulp_lp_hp/src/power_manager.c:118-147 | The software mode after any run is the last valid request that succeeded |
| HfDivider.LoggedPhasesCoverTheWindow | apps/06_pse84_m33_s_shell_ulp_lp_hp/src/power_manager_hf0_divider.c:72-96 | The three logged phases sum, modulo 2^32, to the whole window for all counter values; a failed transition logs nothing and no record is dropped |
| HfDivider.PhasesAreTheSteps | apps/06_pse84_m33_s_shell_ulp_lp_hp/src/power_manager_hf0_divider.c:72-235 | After a success each of the three phases, found by its name, is the 32-bit time between the readings before and after its own step, for both orders of the steps |
| PhaseLog.Telescopes | apps/06_pse84_m33_s_shell_ulp_lp_hp/src/pm_phase_log.c:35-69 | Three consecutive 32-bit deltas sum to the whole delta, whatever wrapped in between |
| PhaseLog.Log.Record | apps/06_pse84_m33_s_shell_ulp_lp_hp/src/pm_phase_log.c:35-42 | A record is appended to the list of phases unless eight are there |
| PhaseLog.Log.TotalCycles | apps/06_pse84_m33_s_shell_ulp_lp_hp/src/pm_phase_log.c:60-69 | The loop returns the 32-bit sum of the recorded phases |
| Console.CrLfIsLossless | apps/06_pse84_m33_s_shell_ulp_lp_hp/src/diag.c:90-102 | The CR LF expansion on the wire determines what was traced |
| Console.CrLfAddsCrOnly | apps/06_pse84_m33_s_shell_ulp_lp_hp/src/diag.c:90-102 | Every LF on the wire stands behind a CR, and these CRs are all that is added |
| Console.Scb.TraceChar | apps/06_pse84_m33_s_shell_ulp_lp_hp/src/diag.c:81-88 | One byte is appended to the wire stream, the FIFO never holds more than 16 bytes, and the wait for headroom ends |
| Console.Scb.Trace | apps/06_pse84_m33_s_shell_ulp_lp_hp/src/diag.c:90-102 | The wire stream grows by exactly the CR LF expansion of the string |
| Console.Scb.Flush | apps/06_pse84_m33_s_shell_ulp_lp_hp/src/diag.c:104-118 | On return FIFO and shift register are empty and no byte was lost or altered |
| PllRetune.Switcher.PllReconfigure | apps/06_pse84_m33_s_shell_ulp_lp_hp/src/power_manager_pll_retune.c:127-166 | Flush, disable, configure, enable: the console is idle when the PLL goes off, and path and status latches follow the outcome of the PDL calls |
| PllRetune.Switcher.SystemEnter | apps/06_pse84_m33_s_shell_ulp_lp_hp/src/power_manager_pll_retune.c:168-228 | CHECK_READY, BEFORE, supply walk, AFTER, in this order; it can end after each of them and after each level of the walk |
| PllRetune.Switcher.Transition | apps/06_pse84_m33_s_shell_ulp_lp_hp/src/power_manager_pll_retune.c:263-304 | Exact hardware calls, latches, phase log and console effect of one transition |
| PllRetune.Switcher.SwitchTo | apps/06_pse84_m33_s_shell_ulp_lp_hp/src/power_manager.c:118-176 | The whole request: return code, s_current_mode, hardware calls, phase log, markers and printk texts |
| PllRetune.ReturnCodes | apps/06_pse84_m33_s_shell_ulp_lp_hp/src/power_manager.c:118-158 | 0, -EINVAL and -EIO, each exactly when |
| PllRetune.LatchesTellThePath | apps/06_pse84_m33_s_shell_ulp_lp_hp/src/power_manager_pll_retune.c:127-166 | After any call, failed or not, zero in both status latches means that the clock path carries the latched frequency |
| PllRetune.CallInSpecIff | apps/06_pse84_m33_s_shell_ulp_lp_hp/src/power_manager_pll_retune.c:127-228 | From a sound state a call leaves the envelope at some step if and only if SystemEnterHp is invoked with the supply at ULP and its 75 MHz lock comes up; every other call, however it fails, ends sound |
| PllRetune.GuardIff | apps/06_pse84_m33_s_shell_ulp_lp_hp/src/power_manager_pll_retune.c:168-178 | Read before the call: a request is safe under every behaviour of the PDL if and only if it is not a request for HP, from another mode, with the supply at ULP |
| PllRetune.RunInSpecIff | apps/06_pse84_m33_s_shell_ulp_lp_hp/src/power_manager_pll_retune.c:127-228 | At every primitive step of every run the core frequency is at most the ceiling of the live supply, exactly when no call of the run is that exception, whatever failed and however stale s_current_mode is |
| PllRetune.StaleModeReachesTheException | apps/06_pse84_m33_s_shell_ulp_lp_hp/src/power_manager_pll_retune.c:187-228 | The software mode is no substitute for the live supply: after an aborted LP->ULP switch the next request for HP is the exception although s_current_mode says LP |
| PllRetune.SuccessIsCanonical | apps/06_pse84_m33_s_shell_ulp_lp_hp/src/power_manager_pll_retune.c:168-304 | A successful switch leaves supply, RRAM mode, divider and path as a function of the target and of AFTER's relock |
| PllRetune.SuccessRunsAtTheCeiling | apps/06_pse84_m33_s_shell_ulp_lp_hp/src/power_manager_pll_retune.c:168-304 | A successful, relocked switch runs the core at exactly the ceiling of its mode: 200, 80 or 50 MHz |
| PllRetune.IntermediateIsSafeIff | apps/06_pse84_m33_s_shell_ulp_lp_hp/src/power_manager_pll_retune.c:168-228 | The intermediate frequency, 75 or 41 MHz, is within the ceilings of both ends of the supply walk exactly unless HP is requested at the ULP level |
| PllRetune.SuccessfulRunsAgree | apps/06_pse84_m33_s_shell_ulp_lp_hp/src/power_manager_pll_retune.c:168-304 | While effective switches succeed and relock, mode, supply, RRAM and frequency agree |
| PllRetune.ZeroMeansThereIff | apps/06_pse84_m33_s_shell_ulp_lp_hp/src/power_manager.c:118-147 | A call that returns 0 leaves the supply at the requested level, unless the request names s_current_mode while the supply is elsewhere; both can be read before the call |
| PllRetune.SupplyFitsIff | apps/06_pse84_m33_s_shell_ulp_lp_hp/src/power_manager_pll_retune.c:168-304 | Over every run, failures included, s_current_mode is the level of the supply exactly when the latest call that reached the supply left it there |
| PllRetune.ZeroCanMeanElsewhere | apps/06_pse84_m33_s_shell_ulp_lp_hp/src/power_manager.c:124-126 | From boot: after a HP->ULP switch that gave up with the supply moved, a request for HP returns 0 with the core at the ULP level |
| PllRetune.LoggedPhasesCoverTheWindow | apps/06_pse84_m33_s_shell_ulp_lp_hp/src/power_manager_pll_retune.c:283-303 | The three phases cover the window for all 32-bit values, the zero-sentinel fallback included |
| PllRetune.PhasesAreTheCallbacks | apps/06_pse84_m33_s_shell_ulp_lp_hp/src/power_manager_pll_retune.c:283-303 | After a success pll_pre, volt and pll_post, found by name, are the 32-bit times up to the end of BEFORE, from there to the start of AFTER, and from there on; a counter that reads 0 empties the phase next to it only |
| PllRetune.ConsoleCleanIff | apps/06_pse84_m33_s_shell_ulp_lp_hp/src/power_manager.c:118-176 | Every byte of a run, markers and printk texts alike, is readable exactly when every effective call was refused at CHECK_READY or succeeded with the UART retuned |
| PllRetune.ConsoleTellsTheOutcome | apps/06_pse84_m33_s_shell_ulp_lp_hp/src/power_manager.c:84-176 | The text of a call is the target's marker, the report and the marker of the outcome, in this order |
| PllRetune.GarbledStaysGarbled | apps/06_pse84_m33_s_shell_ulp_lp_hp/src/power_manager.c:138-176 | No later call repairs a byte that went out garbled |
| CommandLoop.EveryEdgeOncePerLoop | apps/06_pse84_m33_s_shell_ulp_lp_hp/scripts/cycle_modes.py:53 | For every loop count L, L repetitions of COMMANDS over the divider strategy never hit the no-op path, take each of the six directed edges exactly L times and end in HP |
| CommandLoop.PllFollowsTheCommands | apps/06_pse84_m33_s_shell_ulp_lp_hp/scripts/cycle_modes.py:53 | Over PLL retune, too, each command finds another mode and ends in its own home state |
| CommandLoop.PllLoopsOverdriveOncePerLoop | apps/06_pse84_m33_s_shell_ulp_lp_hp/src/power_manager_pll_retune.c:168-178 | Over PLL retune L loops, all commands succeeding, leave the envelope exactly L times, on ULP->HP, and end where they began |
| SecureSplit.Partition.Transition | apps/07_pse84_tfm_m33_m55_power_shell/tfm_partitions/z_pm/z_pm_partition.c:306-369 | The partition's transition body with its rollback: exact divider and supply steps, buck profile and status |
| SecureSplit.Partition.SwitchActiveMode | apps/07_pse84_tfm_m33_m55_power_shell/tfm_partitions/z_pm/z_pm_partition.c:371-413 | All argument checks of the request handler, and nothing touched unless all of them pass |
| SecureSplit.HandlerReplies | apps/07_pse84_tfm_m33_m55_power_shell/tfm_partitions/z_pm/z_pm_partition.c:371-413 | Each PSA status and each value written for the client, exactly when |
| SecureSplit.LdoEdges | apps/07_pse84_tfm_m33_m55_power_shell/tfm_partitions/z_pm/z_pm_partition.c:306-340 | On the edges of the ULP level the SRAM LDO is switched before the way down and after the way up, and what moves when it fails |
| SecureSplit.Manager.ApplyTrimSeq | apps/07_pse84_tfm_m33_m55_power_shell/cm33_ns/src/power_manager.c:134-145 | The loop leaves the trims as the last write to each register says, and every store happens with PRIMASK set |
| SecureSplit.Manager.CallPartition | apps/07_pse84_tfm_m33_m55_power_shell/cm33_ns/src/z_pm_client.c:51-73 | Success means that the call, the handler and the transition all succeeded; when psa_call itself reports an error the transition may have been made all the same |
| SecureSplit.Manager.StepTransition | apps/07_pse84_tfm_m33_m55_power_shell/cm33_ns/src/power_manager.c:170-187 | Mask, pre-trims, secure call, post-trims only on success, PRIMASK back to its entry value, as one trace of stores, call and secure-side actions in this order |
| SecureSplit.Manager.SwitchTo | apps/07_pse84_tfm_m33_m55_power_shell/cm33_ns/src/power_manager.c:205-252 | Return code, mode, trims, the trace of both sides, hardware calls and what the secure side was asked, for every request |
| SecureSplit.ReturnCodes | apps/07_pse84_tfm_m33_m55_power_shell/cm33_ns/src/power_manager.c:205-252 | 0, -ENOTSUP, -EINVAL and -EIO, each exactly when |
| SecureSplit.TraceIsTheRun | apps/07_pse84_tfm_m33_m55_power_shell/cm33_ns/src/power_manager.c:160-252 | Over every run the stores of the one trace make the trims and its actions are the hardware calls; each entry is masked, and divider and supply move only after a whole first table and before the second |
| SecureSplit.TablesComeInPairs | apps/07_pse84_tfm_m33_m55_power_shell/cm33_ns/src/power_manager.c:103-128 | In all four tables the two trim registers of a pair are written one behind the other with the same value |
| SecureSplit.TransitionInSpecIff | apps/07_pse84_tfm_m33_m55_power_shell/tfm_partitions/z_pm/z_pm_partition.c:306-369 | Between any two modes the transition body keeps 400 MHz / divider within the live ceiling at every step, if and only if it is not a failed step down that moved the supply |
| SecureSplit.SameClocksAsDividerStrategy | apps/07_pse84_tfm_m33_m55_power_shell/tfm_partitions/z_pm/z_pm_partition.c:264-279 | Every mode has the core frequency of app 06's divider strategy |
| SecureSplit.CallFromHome | apps/07_pse84_tfm_m33_m55_power_shell/tfm_partitions/z_pm/z_pm_partition.c:306-369 | Between HP and LP a call ends at the home of the reported mode if and only if the supply did not stray and no success went unreported |
| SecureSplit.LpTrimsReached | apps/07_pse84_tfm_m33_m55_power_shell/cm33_ns/src/power_manager.c:103-115 | The HP->LP tables leave all nine trims at the LP values, and the first of them alone at one halfway state, whatever was there before |
| SecureSplit.HpTrimsReached | apps/07_pse84_tfm_m33_m55_power_shell/cm33_ns/src/power_manager.c:117-130 | The LP->HP tables leave all nine trims at the HP values, and the first of them alone six of them at halfway values |
| SecureSplit.TrimsMatchIff | apps/07_pse84_tfm_m33_m55_power_shell/cm33_ns/src/power_manager.c:170-252 | An effective switch leaves the trims of its target when it succeeds, and trims that fit no mode when it fails |
| SecureSplit.SuccessIsCanonical | apps/07_pse84_tfm_m33_m55_power_shell/cm33_ns/src/power_manager.c:170-252 | Wherever earlier failures left the machine, a success fixes divider, supply, buck profile, all nine trims and the mode |
| SecureSplit.RunsAreSafe | apps/07_pse84_tfm_m33_m55_power_shell/cm33_ns/src/power_manager.c:205-252 | Over every run of requests, buck and psa_call keeping their contracts: in spec at every step, divider and supply are those of the non-secure side's mode between calls, and the secure side only sees HP->LP and LP->HP |
| SecureSplit.RunInSpecIff | apps/07_pse84_tfm_m33_m55_power_shell/tfm_partitions/z_pm/z_pm_partition.c:306-369 | Without those contracts: every step of every run is in spec exactly when no delivered HP->LP step failed with the supply at LP, moved there by that step or left there before |
| SecureSplit.ProfileFitsIff | apps/07_pse84_tfm_m33_m55_power_shell/tfm_partitions/z_pm/z_pm_partition.c:306-369 | Over every run the buck profile fits the current mode exactly when the latest switch that reached the partition succeeded; a failed one leaves the profile at its target |
| SecureSplit.TrimsFitIff | apps/07_pse84_tfm_m33_m55_power_shell/cm33_ns/src/power_manager.c:170-252 | Over every run the trims fit the current mode exactly when the latest effective switch succeeded |
| Lfsr.NextTestWordShifts | modules/bgt60tr13c/drivers/bgt60tr13c/bgt60tr13c.h:120-130 | On 12-bit words the driver's expression is one step of a 12-bit shift register with feedback |
| Lfsr.TestWordIsLinear | modules/bgt60tr13c/drivers/bgt60tr13c/bgt60tr13c.h:120-130 | The words stay within 12 bits, and the n-th word of a GF(2) sum is the sum of the n-th words |
| Lfsr.UnitIsCyclic | modules/bgt60tr13c/drivers/bgt60tr13c/bgt60tr13c.h:120-130 | Every register is a polynomial of degree below 12 in the step, applied to one fixed register |
| Lfsr.TwelveSteps | modules/bgt60tr13c/drivers/bgt60tr13c/bgt60tr13c.h:120-130 | The register satisfies its own twelve-step recurrence |
| Lfsr.CayleyHamilton | modules/bgt60tr13c/drivers/bgt60tr13c/bgt60tr13c.h:120-130 | The step satisfies its characteristic polynomial x^12 + x^8 + x^2 + x + 1 |
| Lfsr.ActOfProduct | modules/bgt60tr13c/drivers/bgt60tr13c/bgt60tr13c.h:120-130 | Applying the product of two polynomials is applying one after the other, to every register |
| Lfsr.WholeTurn | modules/bgt60tr13c/drivers/bgt60tr13c/bgt60tr13c.h:120-130 | 4095 steps are the identity |
| Lfsr.NoShortTurn | modules/bgt60tr13c/drivers/bgt60tr13c/bgt60tr13c.h:120-130 | 315, 585, 819 and 1365 steps move every register but zero |
| Lfsr.ReturnsIff | modules/bgt60tr13c/drivers/bgt60tr13c/bgt60tr13c.h:120-130 | A non-zero register returns after exactly the multiples of 4095 steps |
| Lfsr.PeriodIs4095 | modules/bgt60tr13c/drivers/bgt60tr13c/bgt60tr13c.h:120-130 | For every non-zero 12-bit seed and all n, m the n-th and m-th words agree exactly when n and m are congruent modulo 4095 |
| Lfsr.EveryWordIsReached | modules/bgt60tr13c/drivers/bgt60tr13c/bgt60tr13c.h:120-130 | From any non-zero seed, the seed 1 included, the words run through every non-zero 12-bit word |
| RadarRegs.CommandsArrive | modules/bgt60tr13c/drivers/bgt60tr13c/bgt60tr13c.c:21-96 | The sensor decodes the address and the 24 data bits that the driver encoded |
| RadarRegs.Radar.AwaitClear | modules/bgt60tr13c/drivers/bgt60tr13c/bgt60tr13c.c:276-318 | The poll stops at the first failed or cleared read, and times out only after the full count of pending ones |
| RadarRegs.Radar.SoftReset | modules/bgt60tr13c/drivers/bgt60tr13c/bgt60tr13c.c:276-318 | Read, write, poll: the word sent adds the requested reset bits to MAIN and no other, and success means that they were seen clear |
| RadarRegs.Radar.SendRecipe | modules/bgt60tr13c/drivers/bgt60tr13c/bgt60tr13c.c:341-365 | The commands sent are those of the recipe up to the first failed transfer, and the registers are what they make |
| RadarRegs.Radar.Config | modules/bgt60tr13c/drivers/bgt60tr13c/bgt60tr13c.c:329-366 | The reset, then the recipe in order up to the first failed transfer: return code, words sent and registers of every outcome |
| RadarRegs.EmittedIsTheRecipeIff | modules/bgt60tr13c/drivers/bgt60tr13c/bgt60tr13c.c:341-358 | A recipe word is sent unchanged, but for CREF and high-speed MISO in SFCTL, if and only if its write bit is set |
| RadarRegs.RegisterAfterRecipe | modules/bgt60tr13c/drivers/bgt60tr13c/bgt60tr13c.c:329-366 | After configuration a register holds the data of the recipe's last word for it |
| RadarRegs.SfctlAfterRecipe | modules/bgt60tr13c/drivers/bgt60tr13c/bgt60tr13c.c:341-358 | The recipe's last SFCTL word decides what configuration leaves there: its bits with CREF zero and high-speed MISO off |
| RadarRegs.Radar.SetFifoLimit | modules/bgt60tr13c/drivers/bgt60tr13c/bgt60tr13c.c:372-392 | Rejection, failure and the new register contents, for every argument |
| RadarRegs.Radar.EnableTestMode | modules/bgt60tr13c/drivers/bgt60tr13c/bgt60tr13c.c:525-542 | Failure and the new register contents |
| RadarRegs.Radar.Start | modules/bgt60tr13c/drivers/bgt60tr13c/bgt60tr13c.c:397-410 | A start sets bit 0 of MAIN and leaves its other bits and every other register as they were; failures leave all of them |
| RadarRegs.Radar.Stop | modules/bgt60tr13c/drivers/bgt60tr13c/bgt60tr13c.c:412-413 | Stopping frames is a reset of the frame state machine: a failed read, a failed write or the verdict of its polling decides the return code and what becomes of MAIN |
| RadarRegs.OpReturns | modules/bgt60tr13c/drivers/bgt60tr13c/bgt60tr13c.c:383-432 | Argument check, read, write, polling: which of them decides a call's return code |
| RadarRegs.DecodeIsFaithful | modules/bgt60tr13c/drivers/bgt60tr13c/bgt60tr13c.h:51-54 | The four fields are all of SFCTL |
| RadarRegs.LimitRefines | modules/bgt60tr13c/drivers/bgt60tr13c/bgt60tr13c.c:386-391 | Setting the limit changes CREF only |
| RadarRegs.TestModeRefines | modules/bgt60tr13c/drivers/bgt60tr13c/bgt60tr13c.c:535-541 | The test mode changes LFSR_EN only |
| RadarRegs.ThresholdIsExactIff | modules/bgt60tr13c/drivers/bgt60tr13c/bgt60tr13c.c:378-387 | For an accepted limit CREF is limit / 2 - 1 without truncation if and only if the limit is not zero; zero gives the CREF of 16384 |
| RadarRegs.OpRefines | modules/bgt60tr13c/drivers/bgt60tr13c/bgt60tr13c.c:372-413 | One call acts on SFCTL as on a record |
| RadarRegs.SfctlOverARun | modules/bgt60tr13c/drivers/bgt60tr13c/bgt60tr13c.c:372-542 | Under any interleaving of limits, test modes, starts and stops, failed transfers included, SFCTL holds the last threshold and the last test mode that were set, and its other bits never change |
| RadarRegs.SfctlFromConfiguration | modules/bgt60tr13c/drivers/bgt60tr13c/bgt60tr13c.c:329-542 | From configuration on, for any recipe and any calls, failed transfers included: the recipe's last SFCTL word gives the bits that never change, high-speed MISO is off, and the calls give threshold and test mode |
| RadarRegs.StreamerSetUp | apps/10_pse84_ai_m55_udp_radar/src/main.c:136-155 | With the application's own recipe and 128 samples SFCTL ends as the recipe's other bits with a threshold of 63, and MAIN as the recipe's word with FRAME_START added and no reset bit |
| RadarLoss.LostIsCongruent | apps/10_pse84_ai_m55_udp_radar/host/udp_server.py:122-125 | For any arrival order lost is congruent modulo 2^32 to last_seq - first_seq - (radar_pkts - 1) |
| RadarLoss.LostInOrderIff | apps/10_pse84_ai_m55_udp_radar/host/udp_server.py:122-125 | For in-order arrivals lost never overstates, and it is exact if and only if no gap exceeds 2^32 |
| RadarLoss.LostAnyOrderIff | apps/10_pse84_ai_m55_udp_radar/host/udp_server.py:122-125 | With fewer than 2^32 frames in play, any order and duplicates allowed, lost never understates, and it is exact if and only if every arrival is later than the one before |
| RadarLoss.LossIsExact | apps/10_pse84_ai_m55_udp_radar/host/udp_server.py:118-125 | Over an order-preserving, duplicate-free channel lost is the number of frames between first and last delivery that were dropped by the sender or lost on the way |
| RadarStream.UnpackUndoesPack | modules/bgt60tr13c/drivers/bgt60tr13c/bgt60tr13c.c:508-516 | Unpacking returns the 12-bit samples that were packed |
| RadarStream.PackUndoesUnpack | modules/bgt60tr13c/drivers/bgt60tr13c/bgt60tr13c.c:508-516 | Every burst is the packing of exactly one list of samples |
| RadarStream.ShiftsAreArithmetic | modules/bgt60tr13c/drivers/bgt60tr13c/bgt60tr13c.c:513-514 | The shifts, masks and ors of driver and loader are the arithmetic used here |
| RadarStream.UnpackInto | modules/bgt60tr13c/drivers/bgt60tr13c/bgt60tr13c.c:508-516 | The loop fills the buffer with the samples of the burst and touches nothing behind them |
| RadarStream.GetFifoData | modules/bgt60tr13c/drivers/bgt60tr13c/bgt60tr13c.c:436-519 | Argument check, transfer failure and GSR0 errors leave the buffer alone; otherwise it holds the samples |
| RadarStream.BurstAbortsIff | modules/bgt60tr13c/drivers/bgt60tr13c/bgt60tr13c.c:436-505 | A count that is odd or above 16384 is refused, an answered burst exactly for status bits 0, 2 and 3 |
| RadarStream.BuildPacket | apps/10_pse84_ai_m55_udp_radar/src/main.c:57-68 | The buffer holds the packet of its arguments, and its unused end is untouched |
| RadarStream.StampsAreNanoseconds | apps/10_pse84_ai_m55_udp_radar/src/main.c:174-176 | Two stamps differ by a million for each millisecond between them, modulo 2^64 |
| RadarStream.Sender.Acquire | apps/10_pse84_ai_m55_udp_radar/src/main.c:162-176 | A pass goes on exactly when the wait and the burst succeed, and then the packet is that of the burst |
| RadarStream.Sender.Pass | apps/10_pse84_ai_m55_udp_radar/src/main.c:162-193 | One pass of the loop keeps sequence number, counters and wire contents those of the passes so far |
| RadarStream.Sender.Run | apps/10_pse84_ai_m55_udp_radar/src/main.c:158-193 | The loop stops at the first failed wait or burst and has accounted for every pass before it |
| RadarStream.CountersAddUp | apps/10_pse84_ai_m55_udp_radar/src/main.c:158-192 | sent_ok and dropped add up to the sequence number modulo 2^32 |
| RadarHost.DecodeUndoesPacket | apps/10_pse84_ai_m55_udp_radar/host/udp_server.py:55-61 | Decoding returns sequence number, timestamp and samples; the magics of the two programs agree |
| RadarHost.PacketUndoesDecode | apps/10_pse84_ai_m55_udp_radar/host/udp_server.py:118-119 | Every accepted payload is the packet of what the receiver reads out of it |
| RadarHost.DecodeRefusesIff | apps/10_pse84_ai_m55_udp_radar/host/udp_server.py:55-61 | What is wrong with a payload that does not decode: too short, or another magic |
| RadarHost.Receiver.Receive | apps/10_pse84_ai_m55_udp_radar/host/udp_server.py:114-128 | Packet counts, last sequence number, loss and raw file follow the payloads heard so far, radar packets or not |
| RadarHost.FileAlwaysLoads | apps/10_pse84_ai_m55_udp_radar/host/plot_range_fft.py:48-59 | Whatever arrives, the raw file is a whole number of frames, loads, and holds one frame for each radar packet in order of arrival |
| RadarHost.OfferedIsOnTheWire | apps/10_pse84_ai_m55_udp_radar/src/main.c:178-184 | A packet that the socket took is on the wire |
| RadarHost.CentredKeepsShape | apps/10_pse84_ai_m55_udp_radar/host/plot_range_fft.py:59-64 | A loaded frame sums to zero, keeps every difference between samples in units of 2048, and lies strictly between -2 and 2 |
| RadarHost.CentredInRangeIff | apps/10_pse84_ai_m55_udp_radar/host/plot_range_fft.py:49-64 | A loaded frame stays within the promised [-1, 1] exactly when, on the raw samples, 128 * largest - sum and sum - 128 * smallest are both at most 262144 |
| RadarHost.FileInRangeIff | apps/10_pse84_ai_m55_udp_radar/host/plot_range_fft.py:49-64 | All frames of a file that loads stay within [-1, 1] exactly when all its raw frames pass that test |
| RadarHost.CentredCanExceedOne | apps/10_pse84_ai_m55_udp_radar/host/plot_range_fft.py:49-63 | A frame that does not pass: one loud sample |
| RadarHost.EndToEnd | apps/10_pse84_ai_m55_udp_radar/host/plot_range_fft.py:48-64 | From the FIFO through driver, packet, any selection, order and duplication of packets mixed with foreign payloads, receiver, raw file and loader: the k-th frame loaded is, sample for sample, the frame whose packet was the k-th to arrive, centred |
| RadarHost.LossEndToEnd | apps/10_pse84_ai_m55_udp_radar/host/udp_server.py:118-125 | On the same path, over a channel that keeps order, the receiver's loss counter is the frames refused by the socket plus those lost on the way |
| Capture.SegmentByGpio | apps/06_pse84_m33_s_shell_ulp_lp_hp/scripts/cycle_modes.py:401-442 | The loop returns non-empty, level-constant, alternating runs that cover the trace, each with the mean of its samples |
| Capture.LevelIsBitSeven | apps/06_pse84_m33_s_shell_ulp_lp_hp/scripts/cycle_modes.py:401-416 | The level is bit 7 of the digital sample |
| Capture.DecompositionIsUnique | apps/06_pse84_m33_s_shell_ulp_lp_hp/scripts/cycle_modes.py:401-442 | There is only one such list |
| Capture.ChargeUpTo | apps/06_pse84_m33_s_shell_ulp_lp_hp/scripts/cycle_modes.py:648-653 | The length-weighted sum of segment means is the sum of the samples |
| Capture.OverallMeanIsTheMean | apps/06_pse84_m33_s_shell_ulp_lp_hp/scripts/cycle_modes.py:648-653 | overall_mean is the true mean of the capture |
| Capture.SettledMeanIsTheRest | apps/06_pse84_m33_s_shell_ulp_lp_hp/scripts/cycle_modes.py:445-454 | The first 200 ms and the settled mean over the rest make up the segment's charge; short segments keep their mean |
| Capture.SettlingIs200Ms | apps/06_pse84_m33_s_shell_ulp_lp_hp/scripts/cycle_modes.py:445-454 | The settling time is 200 ms at the sample period |
| Capture.PulsesAreTenSamples | apps/06_pse84_m33_s_shell_ulp_lp_hp/scripts/cycle_modes.py:646 | The 100 microsecond limit is ten samples |
| Capture.LabelIdles | apps/06_pse84_m33_s_shell_ulp_lp_hp/scripts/cycle_modes.py:659-683 | One record for each low segment, in order, with the number of earlier long pulses and the mode that follows from it; glitches are skipped |
| Capture.LabelPulses | apps/06_pse84_m33_s_shell_ulp_lp_hp/scripts/cycle_modes.py:685-698 | One record for each long pulse, numbered from 1, with the command of the same index |
| Capture.LabelsAgree | apps/06_pse84_m33_s_shell_ulp_lp_hp/scripts/cycle_modes.py:655-698 | For any capture, glitches included, an idle after k pulses carries the target of the k-th pulse record, that pulse ended before it, and the next begins after it |
| Capture.SummarizeTransitions | apps/06_pse84_m33_s_shell_ulp_lp_hp/scripts/postprocess.py:95-117 | The loop's dictionary has a bucket for exactly the keys that occur, with the cycles and pulses at their indices |
| Capture.BucketsAgreeIff | apps/06_pse84_m33_s_shell_ulp_lp_hp/scripts/postprocess.py:95-117 | The pulses under the key A->B are exactly the pulses labelled A and B, in order, if and only if no other pair of names with a pulse makes the same key; otherwise there are more of them |
| Capture.BucketHoldsItsPulsesIff | apps/06_pse84_m33_s_shell_ulp_lp_hp/scripts/postprocess.py:95-117 | From the capture script to the post-processor, for any capture and any console log: the dictionary's bucket A->B holds the lengths and means of exactly the pulses that the capture script labelled A and B, if and only if there is no such collision |
| Capture.PlainNamesDoNotCollide | apps/06_pse84_m33_s_shell_ulp_lp_hp/scripts/postprocess.py:108-111 | Names without a dash, such as the mode names, never collide |
| Capture.KeysCanCollide | apps/06_pse84_m33_s_shell_ulp_lp_hp/scripts/postprocess.py:111 | Names with an arrow in them can |
| Capture.SummarizeModes | apps/06_pse84_m33_s_shell_ulp_lp_hp/scripts/postprocess.py:71-82 | A bucket for every mode some idle carries, holding the settled means of exactly those idles in order |
| Pmu.DecodeIsFaithful | modules/pmu/drivers/pmu/pmu.h:64-74 | The four fields and the reserved bits are all of DVFSCTRL |
| Pmu.SetterRefines | modules/pmu/drivers/pmu/pmu.c:67-210 | Each setter changes its own field of the record and nothing else, and a rejected one changes nothing |
| Pmu.SetterReadsBack | modules/pmu/drivers/pmu/pmu.c:67-210 | An accepted value sits where the register map has it |
| Pmu.SettersCommute | modules/pmu/drivers/pmu/pmu.c:67-210 | Setters of different fields commute; of two accepted ones on a field the later counts |
| Pmu.EntriesSurvive | modules/pmu/drivers/pmu/pmu.c:125-160 | Encoding and decoding a table entry are inverse to each other |
| Pmu.CallRefines | modules/pmu/drivers/pmu/pmu.c:125-316 | Each API call changes its own part of the device: control record, requested state or one table entry |
| Pmu.RunRefines | modules/pmu/drivers/pmu/pmu.c:125-316 | Under any sequence of calls the registers are the plain record: read-over-write for the table, last accepted value for every field, reserved bits untouched |
| Pmu.Driver.CtrlRmw | modules/pmu/drivers/pmu/pmu.c:67-73 | Afterwards the bits under the mask are those of the new value, the other bits of DVFSCTRL and every other register are as before |
| Pmu.Driver.SetNumStates | modules/pmu/drivers/pmu/pmu.c:170-180 | Refuses 0 and more than 10 states, otherwise the count reads back from bits 7 to 4 and the rest of the device is as the record says |
| Pmu.Driver.SetTimeoutUs | modules/pmu/drivers/pmu/pmu.c:183-190 | The timeout reads back from bits 23 to 8, and nothing else changes |
| Pmu.Driver.SetMode | modules/pmu/drivers/pmu/pmu.c:193-200 | The mode reads back from bit 1, and nothing else changes |
| Pmu.Driver.EnableDvfs | modules/pmu/drivers/pmu/pmu.c:203-210 | The enable flag reads back from bit 0, and nothing else changes |
| Pmu.Driver.SetPstateEntry | modules/pmu/drivers/pmu/pmu.c:125-139 | Writes one entry, frequency in the low half and voltage in the high half, or refuses |
| Pmu.Driver.GetPstateEntry | modules/pmu/drivers/pmu/pmu.c:145-160 | Reads the entry of the record or refuses |
| Pmu.Driver.RequestPstate | modules/pmu/drivers/pmu/pmu.c:219-229 | An accepted index below 10 is the target register afterwards; others are refused |
| Pmu.Driver.ClearTheError | modules/pmu/drivers/pmu/pmu.c:310-316 | Clears ERROR and leaves the rest of the status |
| Pmu.Driver.WaitIdle | modules/pmu/drivers/pmu/pmu.c:286-303 | Returns at the first idle or expired poll; an idle one wins over the timeout |
| Pmu.StatusLayout | modules/pmu/drivers/pmu/pmu.c:235-254 | The decoded status is all that the register map defines of DVFSSTATUS |
| Pmu.Driver.Init | modules/pmu/drivers/pmu/pmu.c:332-388 | Return code and exact list of register writes for every configuration |
| Pmu.EnabledOnlyWhenReady | modules/pmu/drivers/pmu/pmu.c:332-388 | In every prefix of the writes after the first, DVFS is enabled only with the listed pairs uncut, state count, timeout and an in-range target in place, if and only if there are at most ten pairs and every listed value is below 65536 |
| Pmu.DevicetreeHonouredIff | modules/pmu/drivers/pmu/pmu.c:332-441 | When init enables DVFS, the device holds every number of the devicetree node if and only if the table meets that condition, the two counts are below 256 and the timeout is below 65536 |
| Pmu.CutFrequencyIsEnabled | modules/pmu/drivers/pmu/pmu.c:349-356 | A node that does not: 70000 MHz becomes 4464, and DVFS is enabled |
| Pmu.EnabledAfterInitIff | modules/pmu/drivers/pmu/pmu.c:332-388 | DVFS is on at the end exactly when init succeeds with init-enable set; every error return leaves it off |
| Pmu.RestAfterInit | modules/pmu/drivers/pmu/pmu.c:332-388 | The target is 0 unless DVFS was enabled, an error in the table leaves the control register 0, and -EINVAL comes exactly for a table of another length or an init-enable without table or in-range target |
| Pmu.TableReadsBackIff | modules/pmu/drivers/pmu/pmu.c:343-359 | After init the table holds the listed pairs cut to 16 bits, as far as it has room; it holds them as listed if and only if there are at most ten and every value is below 65536 |
| Pmu.CtrlWordReadsBack | modules/pmu/drivers/pmu/pmu.c:361-367 | The state count reads back if and only if it is below 16; what does not fit spills into the timeout |
| Wifi.Connector.constructor | apps/10_pse84_ai_m55_udp_radar/src/wifi_connect.c:143-157 | Starts with the work item pending, the link down and the semaphore empty |
| Wifi.Connector.ConnectWork | apps/10_pse84_ai_m55_udp_radar/src/wifi_connect.c:40-73 | The work handler for a missing interface, a rejected and an accepted request, statement by statement |
| Wifi.Connector.WifiResult | apps/10_pse84_ai_m55_udp_radar/src/wifi_connect.c:75-89 | The result handler: schedule and double on failure, reset on success |
| Wifi.Connector.WifiDisconnect | apps/10_pse84_ai_m55_udp_radar/src/wifi_connect.c:91-97 | The disconnect handler, run without interruption: flag, semaphore, reconnect |
| Wifi.Connector.Ipv4Event | apps/10_pse84_ai_m55_udp_radar/src/wifi_connect.c:116-141 | The address handler, run without interruption |
| Wifi.Connector.WaitUp | apps/10_pse84_ai_m55_udp_radar/src/wifi_connect.c:159-165 | Called between handlers, the wait returns at once exactly when the link is up, and blocks otherwise |
| Wifi.AlwaysLive | apps/10_pse84_ai_m55_udp_radar/src/wifi_connect.c:40-165 | In every reachable state, event handlers, work handler and waiter interleaved statement by statement: work is pending, a request is in flight or the station is associated, or a thread that will schedule the work is between two statements |
| Wifi.BlockedMeansDown | apps/10_pse84_ai_m55_udp_radar/src/wifi_connect.c:116-165 | No wake-up is lost: the waiter is never left blocked on a link that is up |
| Wifi.SuccessMeansUpIff | apps/10_pse84_ai_m55_udp_radar/src/wifi_connect.c:91-165 | A wait that reports success does so with the link up, except exactly when it takes the semaphore between the two statements of a clearing handler |
| Wifi.WaitReturnsIff | apps/10_pse84_ai_m55_udp_radar/src/wifi_connect.c:159-165 | A wait returns 0 where it sees the link up or obtains the semaphore, -EAGAIN where it is blocked and sent away, and nowhere else |
| Wifi.WaiterInsideTheHandler | apps/10_pse84_ai_m55_udp_radar/src/wifi_connect.c:91-165 | A run in which that happens |
| Wifi.BackoffIsExact | apps/10_pse84_ai_m55_udp_radar/src/wifi_connect.c:25-89 | The backoff is min(5000 * 2^k, 30000) after k doublings since it was last reset, whatever the threads do in between |
| Wifi.BackoffTable | apps/10_pse84_ai_m55_udp_radar/src/wifi_connect.c:17-18 | 5, 10, 20 seconds, then 30 |
| Wifi.EveryFailureDoublesOnce | apps/10_pse84_ai_m55_udp_radar/src/wifi_connect.c:40-89 | Every rejection and every failed result doubles the backoff exactly once, every success resets it exactly once, and nothing else does |
| Wifi.RetryDelayIsExact | apps/10_pse84_ai_m55_udp_radar/src/wifi_connect.c:40-97 | What makes the work pending is a thread's scheduling it, and the delay is the backoff after the doublings before |
| Wifi.NextAttemptIsBounded | apps/10_pse84_ai_m55_udp_radar/src/wifi_connect.c:40-97 | Every scheduled delay is a backoff value, at most 30 seconds |
| Wifi.FirstAttemptAtOnce | apps/10_pse84_ai_m55_udp_radar/src/wifi_connect.c:143-157 | The first attempt is pending with no delay until the work queue takes it |

## Left out

- Soc.Board.StepVoltage: the supply moves in whole levels; ramps within a level are not modelled.
- HfDivider.Switcher.Lower: one method stands for the three downward helpers, which differ in dividers only; the same holds for HfDivider.Switcher.Raise. The printed texts and the log's labels are not modelled.
- PllRetune.Switcher.PllReconfigure: a late lock is taken to happen at once; the true bypass frequency is any value up to 50 MHz.
- PllRetune.ConsoleCleanIff: only what pm_switch_to prints; text that other threads print during a switch is not modelled.
- SecureSplit.Manager.StepTransition: the read of PRIMASK and the barriers around it are one assignment.
- SecureSplit.Partition.Transition: the SRAM LDO calls on the LP<->ULP edges are one flag.
- RadarRegs.Radar.SoftReset: waiting times and log output are not modelled.
- RadarStream.GetFifoData: the burst header and the padding bytes are not modelled; the samples are integers, with `RadarStream.ShiftsAreArithmetic` for the bit operations.
- RadarHost.EndToEnd: mean removal and scaling are exact reals; rounding to 32-bit floats is not modelled.
- Capture.SegmentByGpio: samples and sums are exact reals; floating-point rounding and the rounding of JSON fields are not modelled.
- Capture.SummarizeTransitions: the statistics computed from the buckets are not modelled.
- Pmu.Driver.WaitIdle: the wait is given its polls as a finite list; a wait that never ends has no result.
- Wifi.AlwaysLive: one waiting thread, as the application has; a statement is one step, the doubling of the backoff included, and logging is none.
- App 07a's power manager, phase log and console are copies of app 06's.
- `pm_measure_hz`, the clock probe, sleep and deep sleep, PPU and PPC programming, CM55 boot: register pokes whose meaning is in silicon.
- Radar bring-up (`bgt60tr13c_init`), hard reset, and the FIFO interrupt: sequences of the same transfers, or I/O.
- `frame_stats`, range axis and FFT, plotting, energy and break-even figures: one-line formulas or floating point.
- Serial, PPK2 and socket handling, regular expressions, shell commands, LEDs, Bluetooth and the smaller applications: I/O or user interface.
