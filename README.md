# Page-replacement simulators, modelled in Dafny

`paging.py` counts the page faults that three page-replacement policies
incur on a reference string, given the number of page frames `size`:

- **FIFO** keeps the resident pages in a queue in arrival order. A miss
  with every frame taken deletes the head and appends the new page.
- **LRU** keeps a stack with the most recent page on top. A hit moves the
  page to the top. A miss with every frame taken deletes the bottom entry
  `stack[size-1]`, then pushes the page.
- **OPT** (Belady's policy) fills free frames in order. Once every frame
  is taken, a miss overwrites the slot of the resident whose next use lies
  farthest ahead. Residents are scanned in frame order: the first one that
  is never referenced again wins at once; otherwise the strictly greatest
  next-use distance wins, so ties go to the earliest frame.

The model has five modules:

- `Paging` (`paging.dfy`) holds what the policies share:
  - the state `Memory(frames, faults)`;
  - the Python list operations `index`, `remove` and `insert` (`IndexOf`,
    `Remove`, `Insert`), with `RemoveSpec` and `InsertSpec` stating what
    each leaves in the rest of the list;
  - a counting argument. Any step that obeys a few laws (`StepLaws`) keeps
    the invariant `Counted`, which bounds the fault count by the distinct
    pages of the prefix seen so far.
- `Fifo`, `Lru` and `Opt` (`fifo.dfy`, `lru.dfy`, `opt.dfy`) each have the
  same structure:
  - a pure `Step` for one reference;
  - `Run(size, pages, n)`, the state after the first `n` references;
  - `Faults`, the count after the whole string;
  - a `PageFaults` method that mirrors the Python loop on a local sequence
    and is proved to return `Faults`.

  Alongside `Step` sit:
  - OPT's victim search: the pure `NextUse`, `Distance`, `Farthest` and
    `Victim`, and the method `ChooseVictim`, which reproduces the nested
    loop with its `break` and `for … else`;
  - LRU's reference definition `Recency`, the move-to-front list over
    unlimited frames, of which the LRU stack is always the first `size`
    entries.
- `Scenarios` (`scenarios.dfy`) works the driver's reference strings by hand:
  - the string the driver runs (paging.py:156), through all three policies
    with three frames;
  - the second commented-out string (paging.py:159), through FIFO with three
    and with four frames, and through LRU with four frames up to its first
    eviction. OPT is not run on it.

Page identifiers are a type parameter `T` with equality. Faults are a
`nat`; Python's integers are unbounded, so no width is modelled. With
`size <= 0` the source crashes on the first reference, which always misses
(`del queue[0]`, `del stack[size-1]` or `frames[0]` on an empty list). On
an empty reference string it returns 0 for any `size`. Every operation of
the model requires `size >= 1`.

More frames can cost FIFO more faults (Belady's anomaly).
`Scenarios.FifoAnomaly` proves that the string at paging.py:159 costs FIFO
9 faults with three frames and 10 with four.

Each policy's `RunCounted`, `FaultBounds` and `NoEviction` say the same
thing about a different `Run`. The shared argument is proved once, in
`Paging.CountStep`, and each policy only supplies its own step laws.

## Model

| member | source | states |
|---|---|---|
| Paging.Start | paging.py:24-25 | a simulator starts with no resident page and no fault |
| Paging.IndexOf | paging.py:121 | the position found holds the page, and no earlier position does |
| Paging.Remove | paging.py:57 | removing a resident page shortens the list by one; `RemoveSpec` says which entry goes |
| Paging.RemoveSpec | paging.py:57 | `remove` takes out exactly one copy of the page, its first occurrence, and keeps every other entry in order |
| Paging.RemoveResident | paging.py:57 | in a duplicate-free list, `remove` leaves a duplicate-free list without the page and with every other page |
| Paging.Insert | paging.py:123 | `insert(pos, x)` lengthens the list by one and puts `x` at `pos` |
| Paging.InsertSpec | paging.py:123 | `insert(pos, x)` leaves the entries before `pos` alone and shifts the rest right by one |
| Paging.ReplaceSlot | paging.py:121-123 | in a duplicate-free list, `index` then `remove` then `insert` at the same position is the same as overwriting that one slot |
| Paging.CountStep | paging.py:27-32 | any step that obeys the shared step laws keeps the invariant: distinct pages seen ≤ faults ≤ references seen, with equality while the distinct pages fit |
| Paging.MissFindsFreeFrame | paging.py:30-31 | while the distinct pages fit in the frames, a miss always finds a free frame |
| Fifo.Step | paging.py:28-32 | after a reference the page is in the queue, and the count rises by one exactly when the page was not |
| Fifo.Run | paging.py:27-32 | after `n` references at most `n` faults have been counted |
| Fifo.Faults | paging.py:27-34 | the count never exceeds the length of the reference string |
| Fifo.StepSpec | paging.py:28-32 | the queue stays within `size` and duplicate-free; a hit changes neither queue nor count; a miss adds one fault; with a free frame it only appends; with a full queue it removes exactly `queue[0]` and appends the page at the tail |
| Fifo.RunCounted | paging.py:27-32 | after every prefix the queue fits and holds only referenced pages, and the fault count lies between the distinct pages and the references of the prefix |
| Fifo.FaultBounds | paging.py:24-34 | no references give 0 faults; distinct pages ≤ faults ≤ references; faults equal the distinct pages when they fit in the frames |
| Fifo.NoEviction | paging.py:30-32 | when the distinct pages fit, no miss ever finds the queue full, so a miss only appends |
| Fifo.PageFaults | paging.py:11-34 | the loop returns the FIFO fault count of the whole string, and with it the bounds above |
| Lru.Step | paging.py:54-68 | after a reference the page is on top of the stack, and the count rises by one exactly when the page was not in the stack |
| Lru.Run | paging.py:53-68 | after `n` references at most `n` faults have been counted |
| Lru.Faults | paging.py:53-70 | the count never exceeds the length of the reference string |
| Lru.StepSpec | paging.py:54-68 | the stack stays within `size`, duplicate-free, with the page on top; a hit keeps the count and gives `[page]` + the old stack without the page, in order; a miss adds one fault; with a free frame it only pushes; with a full stack it drops exactly `stack[size-1]` |
| Lru.RunCounted | paging.py:53-68 | after every prefix the stack fits and holds only referenced pages, and the fault count lies between the distinct pages and the references of the prefix |
| Lru.RunTop | paging.py:54-68 | after every reference the stack fits, is duplicate-free and has the page just referenced on top |
| Lru.FaultBounds | paging.py:50-70 | no references give 0 faults; distinct pages ≤ faults ≤ references; faults equal the distinct pages when they fit |
| Lru.NoEviction | paging.py:60-65 | when the distinct pages fit, no miss finds the stack full, so a miss only pushes |
| Lru.WithoutSpec | paging.py:57 | leaving a page out keeps all other pages and keeps a list duplicate-free |
| Lru.Recency | paging.py:53-68 | the recency list of a prefix is duplicate-free and holds exactly the distinct pages referenced |
| Lru.TruncationStep | paging.py:54-68 | one LRU step on the first `size` entries of a recency list gives the first `size` entries of the next recency list |
| Lru.MatchesRecency | paging.py:53-68 | after every prefix the LRU stack is exactly the `size` most recently referenced distinct pages, most recent first |
| Lru.FaultIffNotRecent | paging.py:55-65 | a reference faults exactly when its page is not among the `size` most recently referenced distinct pages |
| Lru.PageFaults | paging.py:37-70 | the loop returns the LRU fault count of the whole string, and with it the bounds above |
| Opt.NextUse | paging.py:106-109 | a next use, when there is one, is a 1-based position within the remaining references |
| Opt.NextUseSpec | paging.py:106-109 | the next use is absent exactly when the page is never referenced again; otherwise it is the 1-based position of its first occurrence |
| Opt.NextUseAt | paging.py:106-108 | the first position holding the page gives its 1-based next use |
| Opt.Distance | paging.py:106-115 | the distance lies between 1 and one past the last remaining reference |
| Opt.DistanceSpec | paging.py:106-115 | the distance is past the end exactly when the page is never used again; otherwise it is the next use |
| Opt.Farthest | paging.py:116-118 | the slot kept is one of the slots scanned, from `k` to the last |
| Opt.FarthestSpec | paging.py:116-118 | the chosen slot has the greatest distance among the slots scanned, and every earlier slot is strictly nearer |
| Opt.Victim | paging.py:100-118 | the victim is a slot of the frames |
| Opt.VictimSpec | paging.py:100-118 | if some resident is never used again, the victim is the first such resident in frame order; otherwise it has the greatest next-use distance and every earlier resident is strictly nearer |
| Opt.VictimUnique | paging.py:100-118 | a slot with the greatest distance and strictly nearer slots before it is the victim |
| Opt.ChooseVictim | paging.py:100-118 | the nested scan, with its early exit for a page never used again and its strict `>` update, returns the page in the victim's slot |
| Opt.Step | paging.py:90-123 | a hit changes neither the frames nor the count; the count rises by one exactly on a miss |
| Opt.StepSpec | paging.py:90-123 | the frames stay within `size` and duplicate-free; a hit changes nothing; a miss adds one fault; with a free frame it only appends; with every frame taken it overwrites the victim's slot and leaves every other slot as it was |
| Opt.NoDupReplace | paging.py:121-123 | overwriting a slot with a page that was not resident keeps the frames duplicate-free, with only that page swapped |
| Opt.RunCounted | paging.py:89-123 | after every prefix the frames fit and hold only referenced pages, and the fault count lies between the distinct pages and the references of the prefix |
| Opt.Faults | paging.py:89-125 | the count never exceeds the length of the reference string |
| Opt.FaultBounds | paging.py:86-125 | no references give 0 faults; distinct pages ≤ faults ≤ references; faults equal the distinct pages when they fit |
| Opt.NoEviction | paging.py:90-93 | when the distinct pages fit, no miss finds the frames full, so a miss only appends |
| Opt.StaysFull | paging.py:94-123 | once every frame is taken, every frame stays taken by distinct pages for the rest of the string |
| Opt.PageFaults | paging.py:73-125 | the loop returns the OPT fault count of the whole string, and with it the bounds above |
| Scenarios.FifoOnReference | paging.py:156 | FIFO with three frames misses 15 of the driver's 20 references |
| Scenarios.LruOnReference | paging.py:156 | LRU with three frames misses 12 of them |
| Scenarios.OptOnReference | paging.py:156 | OPT with three frames misses 9 of them |
| Scenarios.FifoAnomaly | paging.py:159 | on the alternative string FIFO misses 9 times with three frames and 10 times with four (Belady's anomaly) |
| Scenarios.LruFirstEviction | paging.py:159 | with four frames on the alternative string, LRU's first eviction drops 3, the bottom of the stack `[2, 1, 4, 3]` |
| Scenarios.OptTieBreak | paging.py:111-115 | `Victim([2, 3], [4, 5]) == 0`: when neither resident is used again, the first in frame order is the victim (an instance of `Opt.VictimSpec`) |

## Left out

- `main`, the command-line handling, the usage message and the `print`
  statements (paging.py:146-171). Their inputs become parameters; the
  scenarios fix `size` to 3 or 4 where the driver reads it from the command
  line.
- `generate_page_reference_string` (paging.py:128-143). It depends on
  `random.randint`; the model takes reference strings as inputs.
- The first commented-out reference string (paging.py:157-158) is not
  worked through.
- `size <= 0` is excluded by precondition. On a non-empty string every
  simulator crashes there. The one case left out with it is the empty
  string with `size <= 0`, for which the source returns 0. The docstrings'
  range "1 to 7" (paging.py:17) is not enforced; any `size >= 1` is
  allowed.
- Opt.Run: carries no contract of its own. What the fold keeps after every
  prefix is stated by `Opt.RunCounted`, `Opt.StaysFull` and
  `Opt.FaultBounds`.
- Monotonicity of faults in `size` is not stated. It is false for FIFO, as
  `Scenarios.FifoAnomaly` shows. For LRU and OPT it holds, but the model
  does not prove it.
- Belady optimality, OPT ≤ FIFO and OPT ≤ LRU on every input, is not
  proved. Nothing in the code establishes it.
- The Python lists are modelled as immutable sequences that the methods
  reassign. Aliasing cannot arise: each list is local to its call.
