# Verified model of the BCM2837 driver

This project models the parts of a BCM2837 (Raspberry Pi 3) driver library and of its bare-metal demonstration whose
correctness depends on interaction: the two I2C master transports and the controller they drive, IRQ dispatch, the
boot-time translation tables, the console shared by four cores, and the loops of the freestanding C library. Check it
with `dafny verify dfyconfig.toml`.

## How it is laid out

| file | models |
|---|---|
| `Words.dfy`, `Common.dfy` | 32-bit words with C++'s operators; pointers and bytes |
| `BscRegisters.dfy` | the BSC register driver over a block that is hardware: S is write-1-to-clear, CLEAR and ST act once and read as zero, S and FIFO show whatever the world shows |
| `Transfers.dfy`, `PolledLaws.dfy`, `PolledTransport.dfy` | the byte pump both transports share; exact budgets; the polled transport as a class |
| `StatusWords.dfy`, `Arguments.dfy` | what both transports make of every bit of every status word; which calls are refused |
| `IrqTransfers.dfy`, `IrqStarts.dfy`, `IrqTransport.dfy`, `IrqLaws.dfy` | the interrupt-driven transport: state functions, with interrupts between the steps of `start`; the class proved equal to them; their laws for every pattern of interrupts |
| `Agreement.dfy` | the two transports agree; exact budgets when driven by interrupts |
| `IrqRuns.dfy`, `IrqBooks.dfy` | whole runs of asynchronous starts, callbacks, stray interrupts and synchronous calls at any time: the enable bits; the callbacks |
| `BscDevice.dfy`, `FreshStart.dfy`, `EndToEnd.dfy`, `Delivery.dfy`, `RegisterDevice.dfy` | an honest controller acting between any two register accesses; no stale completion; conservation of bytes; end-to-end delivery; register round trips |
| `AfterTransfer.dfy`, `Attainable.dfy` | how a transfer leaves the controller; a controller that makes every transfer succeed |
| `RunDelivery.dfy`, `StaleStarts.dfy`, `QuietLaunch.dfy`, `StrayEntries.dfy` | whole runs against that controller; calls that displace a transfer; entries of the handler that nothing gates |
| `Interrupts.dfy` | dispatch priority and drain |
| `Mmu.dfy` | the tables, and the architecture's walk through them |
| `Console.dfy`, `ConsoleRuns.dfy`, `ConsoleProgress.dfy`, `Printing.dfy`, `Libc.dfy`, `Gpio.dfy` | the shared console, number printing, memory loops, packed pin modes |

Imperative code is modelled by classes and methods over fields and arrays. Each such method's postcondition equates the
new state with a function of the old one, and the laws are lemmas about those functions. The outside world enters as
parameters: arbitrary streams of status words and FIFO bytes, an arbitrary number of interrupts at every moment of
waiting and after every step of a `start`, an arbitrary client behind the callbacks. `BscDevice` adds the controller:
`Seen` replays a driver's transcript against a state machine that may send, receive, finish or fail between any two
accesses, and is defined iff an honest controller could have answered that transcript. It follows sections 3.1 and 3.2
of "BCM2837 ARM Peripherals"; the walk in `Mmu` follows chapter D8 of the Arm Architecture Reference Manual, DDI 0487.

## What is not true of the code, and exactly when it is

- Callbacks: a synchronous `write` or `read` does not test `active`. In every run each callback is called as often as it
  should be except that one is lost, for good, iff a synchronous call that is not rejected comes while a transfer with a
  callback is in flight (`IrqBooks.CallbackLostIff`, `IrqBooks.LostForEver`). A rejected call, or one that displaces a
  transfer without a callback, loses none.
- Displacing calls: nothing masks the handler while a synchronous call replaces the record of a transfer in flight. An
  interrupt taken there can end the new transfer before it is started: the call then returns with its interrupts enabled,
  and the next one can store into its buffer (`IrqRuns.PreemptedSync`); or it returns Ok with nothing sent, or with the
  earlier transfer's bytes (`StaleStarts.StaleRun`). That a synchronous call ends at rest, and that its result is true,
  holds for every controller and every placement of interrupts iff no interrupt is enabled when it is made
  (`IrqRuns.SyncRestIff`, `StaleStarts.SyncDeliversIff`). The laws of a synchronous call and of whole runs are stated with
  that condition, or the weaker one that no interrupt arrives inside the `start` of a displacing call.
- Lengths: DLEN keeps 16 bits while callers pass any size. Ok means that the whole buffer was delivered iff it is at most
  65535 bytes long (`Delivery.PolledWriteDelivers`, `Delivery.IrqDelivers`); a write of 65536 bytes can be Ok with no byte
  delivered (`Delivery.WriteBoundIsTight`), a read that long is never Ok.
- Stray interrupts: the handler relies on the enable bits. Entered without regard to them it can store into the buffer of a
  read that is over (`StrayEntries.FinishedReadIsStoredInto`), or finalize a transfer that `start` has only begun to set
  up, iff the controller shows a flag (`StrayEntries.EntryBeforeClearing`).
- Budgets: `wait_complete` does not look at `done` after its last wait, so one more wait is needed than interrupts.
- `memcpy` on overlapping ranges is `memmove` iff the destination does not begin strictly inside the source.
- `print_uint`'s buffer suffices iff the base is at least 7; its callers use 10 and 16.
- Dispatch empties the pending set iff every pending source has a handler; an unhandled one blocks all after it.

## Where code and documentation differ

The model does what the code does. The interrupt-driven transport's design document under docs/ describes
in its section 4.4 a small-transfer path that preloads the FIFO and enables INTD alone; `start` always enables INTT or
INTR (src/i2c/i2c_irq.cpp:83-91) and the handler does all the filling. Its section 4.5 gates the handler's FIFO accesses
by TXW and RXR; the code looks at TXD and RXD, and reads S again for every byte (src/i2c/i2c_irq.cpp:98-114).
The comment at inc/i2c_bus.hpp:33 explains Timeout as DONE never asserted; the code also returns it for a DONE with
bytes owed.

## Model

| member | source | states |
|---|---|---|
| BscRegisters.ControlFieldLaws | src/i2c/i2c.cpp:10-59 | On plain read/write bits, `get_control` after `set_control` returns the low bits of the value, and every other named field of C reads back what it did before: the named fields share no bit. |
| BscRegisters.DecodeField | src/i2c/i2c.cpp:44-54 | The shift-and-mask updates of C change exactly the named field, for every old value and every value or-ed in, the two-bit CLEAR field included. |
| BscRegisters.ControlBits | src/i2c/i2c.cpp:10-20 | The bits of C by number: READ 0, CLEAR 4 and 5, ST 7, INTD 8, INTT 9, INTR 10, I2CEN 15, for the driver's fields and for the device. |
| BscRegisters.I2c.SetControlField | src/i2c/i2c.cpp:44-49 | Two stores reach the device: the field cleared, then the field or-ed in; all other bits of C keep their values, CLEAR and ST read back as zero. |
| BscRegisters.I2c.ClrControlField | src/i2c/i2c.cpp:51-54 | One store with the field cleared; the other bits are kept. |
| BscRegisters.I2c.ClrStatusBit | src/i2c/i2c.cpp:61-64 | A store to S of the one bit to clear (write-1-to-clear), no other register touched. |
| BscRegisters.I2c.SlaveAddress | src/i2c/i2c.cpp:78-81 | A keeps the low seven bits of the address, and nothing else changes. |
| BscRegisters.I2c.DataLength | src/i2c/i2c.cpp:87-90 | DLEN keeps 16 bits of a length that was cut to 32 bits by the caller's cast. |
| BscRegisters.I2c.ClockDivider | src/i2c/i2c.cpp:96-99 | DIV keeps 16 bits of the divider. |
| BscRegisters.I2c.ClearTheFifo | src/i2c/i2c.cpp:105-107 | CLEAR is set to 0b01 by a read-modify-write pair. |
| BscRegisters.I2c.StartRead | src/i2c/i2c.cpp:109-113 | I2CEN, READ = 1, ST, in this order. |
| BscRegisters.I2c.StartWrite | src/i2c/i2c.cpp:115-119 | I2CEN, READ = 0, ST, in this order. |
| BscRegisters.I2c.WriteByte | src/i2c/i2c.cpp:121-123 | One byte goes to the FIFO. |
| BscRegisters.I2c.ReadByte | src/i2c/i2c.cpp:125-127 | One byte is popped from the FIFO: the low eight bits of the word read. |
| PolledLaws.PolledBudget | src/i2c/i2c_bus.cpp:55-68 | Exact budget law of the polled loop: if the deciding word comes after m others, its verdict, the buffer and the transcript up to it are the outcome iff m < max_spins; otherwise the outcome is Timeout after exactly max_spins words. |
| PolledLaws.MovedPlusIdle | src/i2c/i2c_bus.cpp:55-68 | The words before the deciding one are the byte-moving and the idle ones: m = T + I. |
| PolledLaws.PolledDecides | src/i2c/i2c_bus.cpp:80-95 | A polled loop that did not expire met a deciding word within its budget. |
| PolledLaws.OkMovesAll | src/i2c/i2c_bus.cpp:89-93 | A read's Ok means that every byte asked for was moved, its DONE-Timeout that some were not; a write's DONE is always Ok. |
| PolledLaws.PolledSpinsNeeded | src/i2c/i2c_bus.cpp:80-95 | In terms of the caller: the verdict is returned iff T + I + 1 <= max_spins, else Timeout; a read returns Ok only if max_spins > len. |
| StatusWords.PolledEnds | src/i2c/i2c_bus.cpp:55-68 | One status word, bit by bit: ERR ends the polled transfer with Nack, else CLKT with ClockTimeout, whatever the other bits say; else, if it offers no byte that is owed, DONE with Ok, or Timeout for a read that is owed bytes. S has been read once, nothing moved. |
| StatusWords.PolledGoesOn | src/i2c/i2c_bus.cpp:80-95 | Any other word: the byte it offers, TXD for a write and RXD for a read, is pushed from or stored in the next cell of the buffer, and the loop goes on; if it offers none, just so. |
| StatusWords.IsrEndsAt | src/i2c/i2c_irq.cpp:98-122 | The same for a word the interrupt handler reads; one without a verdict that offers nothing ends the interrupt. |
| StatusWords.IsrGoesOn | src/i2c/i2c_irq.cpp:98-122 | And one that offers a byte has it moved and the next word read. |
| StatusWords.PolledTransferWords | src/i2c/i2c_bus.cpp:46-96 | Of all the words a polled transfer reads, a word with ERR or CLKT is the last and its error is the result; the bits of the last word are the result in any case, and nothing is done after it; an expired transfer has read max_spins words. |
| StatusWords.PolledFailsAtOnce | src/i2c/i2c_bus.cpp:57-58 | With an error in its first word it reads no other, moves nothing and changes no memory. |
| StatusWords.InterruptWords | src/i2c/i2c_irq.cpp:96-142 | The same for one interrupt, `finalize` and what the callback starts included: all words but the last are free of errors and move a byte each; the transfer is finalized iff the last one ends it, with the result of its bits; after it registers are only written. |
| StatusWords.InterruptFailsAtOnce | src/i2c/i2c_irq.cpp:100-101 | With an error in its first word an interrupt reads no other, moves nothing, changes no memory and finalizes with that error. |
| Arguments.PolledBadArgIff | src/i2c/i2c_bus.cpp:46-76 | A polled call returns BadArg iff its buffer is null, its length 0 or its address above 0x7F; and then nothing at all has happened. |
| Arguments.SyncBadArgIff | src/i2c/i2c_irq.cpp:167-179 | The same for a synchronous interrupt-driven call, whatever it displaces and wherever interrupts come. |
| Arguments.AsyncRefusedIff | src/i2c/i2c_irq.cpp:189-205 | An asynchronous call is refused with nothing changed iff its arguments are bad in that way or a transfer is in flight, and starts one otherwise. |
| PolledTransport.LoopFrame | src/i2c/i2c_bus.cpp:80-95 | A loop writes only the buffer cells it advances over; a write changes no memory. |
| PolledTransport.TransferKeepsRam | src/i2c/i2c_bus.cpp:46-96 | No cell outside the read buffer changes, whatever the verdict. |
| PolledTransport.FailedWriteStopsThere | src/i2c/i2c_bus.cpp:98-108 | When the write phase of `write_read` fails, the read phase never starts: same transcript as the write alone, memory unchanged. |
| PolledTransport.Bcm2837I2cTransport.Prime | src/i2c/i2c_bus.cpp:31-38 | FIFO cleared, DONE, ERR and CLKT cleared, A and DLEN set, in this order. |
| PolledTransport.Bcm2837I2cTransport.Write | src/i2c/i2c_bus.cpp:46-69 | `write` leaves exactly the registers, transcript, memory and result of the specification function the laws are about; bad arguments touch nothing. |
| PolledTransport.Bcm2837I2cTransport.Feed | src/i2c/i2c_bus.cpp:53-68 | The spin loop of `write` against the recursive pump. |
| PolledTransport.Bcm2837I2cTransport.Read | src/i2c/i2c_bus.cpp:71-96 | The same for `read`, into the caller's buffer in place. |
| PolledTransport.Bcm2837I2cTransport.Drain | src/i2c/i2c_bus.cpp:78-95 | The spin loop of `read` against the recursive pump: the FIFO is drained before DONE is honoured. |
| PolledTransport.Bcm2837I2cTransport.WriteRead | src/i2c/i2c_bus.cpp:98-108 | `write`, then `read` only after Ok. |
| PolledTransport.Bcm2837I2cTransport.ReadReg | inc/i2c_bus.hpp:63-66 | `read_reg` is `write_read` with the register number in a one-byte buffer. |
| PolledTransport.Bcm2837I2cTransport.WriteReg | inc/i2c_bus.hpp:69-73 | `write_reg` is `write` of register number and value. |
| IrqTransport.Bcm2837I2cIrqTransport.Start | src/i2c/i2c_irq.cpp:65-94 | `start` replaces the record assignment by assignment and makes the 17 register writes in the source's order, ST last; called by a thread it is interrupted after each of its first twelve steps as often as interrupts arrive and are enabled, called by a callback it is not. |
| IrqTransport.Bcm2837I2cIrqTransport.Turn | src/i2c/i2c_irq.cpp:99-121 | One turn of the handler's loop is one step of the byte pump both transports share: same decision, same FIFO access, same buffer cell, same index. |
| IrqTransport.Bcm2837I2cIrqTransport.MoveBytes | src/i2c/i2c_irq.cpp:98-122 | The handler's loop moves bytes until a word is idle or decides. |
| IrqTransport.Bcm2837I2cIrqTransport.HandleIrq | src/i2c/i2c_irq.cpp:96-123 | One interrupt: the loop, then `finalize` with the verdict if there is one; the whole new state is stated. |
| IrqTransport.Bcm2837I2cIrqTransport.Finalize | src/i2c/i2c_irq.cpp:125-142 | Flags and interrupt enables cleared, result and `done` stored, `active` dropped, and only then the callback, taken out of the record first. |
| IrqTransport.Bcm2837I2cIrqTransport.CallBack | src/i2c/i2c_irq.cpp:136-141 | A callback may start any transfers; what it leaves behind is what the controller accepted. |
| IrqTransport.Bcm2837I2cIrqTransport.AbortTransfer | src/i2c/i2c_irq.cpp:144-153 | Interrupts off, FIFO and flags cleared, `active` dropped; `done` and the callback stay. |
| IrqTransport.Bcm2837I2cIrqTransport.WaitComplete | src/i2c/i2c_irq.cpp:155-165 | At most max_waits looks at `done`, a wait after each; no look after the last wait, then abort and Timeout. |
| IrqTransport.Bcm2837I2cIrqTransport.Write | src/i2c/i2c_irq.cpp:167-172 | Synchronous write; `active` is not tested, and a transfer in flight can interrupt its `start`. |
| IrqTransport.Bcm2837I2cIrqTransport.Read | src/i2c/i2c_irq.cpp:174-179 | Synchronous read; the same. |
| IrqTransport.Bcm2837I2cIrqTransport.WriteRead | src/i2c/i2c_irq.cpp:181-187 | `write`, then `read` only after Ok. |
| IrqTransport.Bcm2837I2cIrqTransport.WriteAsync | src/i2c/i2c_irq.cpp:189-196 | Refused with nothing changed on bad arguments or while a transfer is in flight; otherwise started with its callback. |
| IrqTransport.Bcm2837I2cIrqTransport.ReadAsync | src/i2c/i2c_irq.cpp:198-205 | The same for reads. |
| IrqTransport.Bcm2837I2cIrqTransport.ReadReg | inc/i2c_bus.hpp:63-66 | `read_reg` over this transport. |
| IrqTransport.Bcm2837I2cIrqTransport.WriteReg | inc/i2c_bus.hpp:69-73 | `write_reg` over this transport. |
| IrqLaws.IsrFollows | src/i2c/i2c_irq.cpp:98-122 | One interrupt consumes words of the stream exactly up to and including the next idle or deciding one, and does with them what the pump does. |
| IrqLaws.IsrBound | src/i2c/i2c_irq.cpp:96-123 | Work bound: every interrupt ends after at least one and at most remaining + 1 status reads, moves at most the remaining bytes, keeps the index within the length, leaves C alone, and writes only the buffer cells from the old index up to the new one. |
| IrqLaws.InterruptsLaw | src/i2c/i2c_irq.cpp:96-123 | With I idle words before the deciding word, n interrupts have ended the transfer, exactly at that word, iff n > I. |
| IrqLaws.InterruptsDecide | src/i2c/i2c_irq.cpp:96-123 | Interrupts that end a transfer met a deciding word. |
| IrqLaws.DeliverReaches | src/i2c/i2c_irq.cpp:96-142 | Gated interrupts in a row, finalization included, come to the pump's state, settled once; after that no further one gets through. |
| IrqLaws.SyncLaw | src/i2c/i2c_irq.cpp:155-179 | A synchronous transfer, for every pattern of interrupts, if none is enabled when it is made or none arrives inside its `start`: the state its interrupts lead to and its verdict if they are enough before the last look, otherwise that state aborted, and Timeout. |
| IrqLaws.SyncWithin | src/i2c/i2c_irq.cpp:167-179 | A synchronous transfer changes no memory but its own read buffer, whatever it displaces and wherever interrupts come. |
| IrqLaws.FailedWriteStopsThere | src/i2c/i2c_irq.cpp:181-187 | When the write phase of `write_read` fails, the read phase never starts and no memory has changed. |
| Agreement.IrqBudget | src/i2c/i2c_irq.cpp:155-165 | Exact budget law, if no interrupt is enabled at the call or none arrives inside `start`: with I idle words before the deciding one, the verdict is returned iff I + 1 interrupts arrive before the last look at `done`, otherwise Timeout; and then the data is where the deciding word left it. |
| Agreement.IrqBudgetOneEach | src/i2c/i2c_irq.cpp:155-165 | On the same condition, with one interrupt to a wait: the verdict iff I + 2 <= max_waits, otherwise Timeout. |
| Agreement.TransportsAgree | src/i2c/i2c_irq.cpp:96-123 | Refinement: for every stream of status words and FIFO bytes, every memory, every pattern of interrupts while waiting and every pair of budgets that do not expire, both transports return the same result, leave the same memory, have pushed the same bytes and have read both streams equally far, if no interrupt is enabled at the call or none arrives inside `start`. |
| Agreement.NeverDecided | src/i2c/i2c_bus.cpp:55-68 | On a stream that never decides the transfer both transports return Timeout, whatever the budgets, on the same condition. |
| IrqLaws.StopsLaw | src/i2c/i2c_irq.cpp:155-165 | A watchdog loop sees the end of the transfer iff the interrupts before its last look have brought it about, and the last wait is followed by no look. |
| IrqStarts.BegunIsStart | src/i2c/i2c_irq.cpp:65-94 | The interruptible steps of `start` are the one step that sets the record and arms the controller, if no interrupt is enabled before or none arrives inside. |
| IrqRuns.SyncEndsAtRest | src/i2c/i2c_irq.cpp:155-179 | A synchronous call that is not rejected leaves nothing in flight and no interrupt enabled, if no interrupt is enabled when it is made or none arrives inside its `start`. |
| IrqRuns.SyncRestIff | src/i2c/i2c_irq.cpp:155-179 | Exactly when that holds for every controller and every placement of interrupts: iff no interrupt is enabled at the call; which, as long as the enable bits are in step with the record, is iff no transfer is in flight. |
| IrqRuns.PreemptedSync | src/i2c/i2c_irq.cpp:65-94 | The failing input: an entry between the record and the registers of a displacing call that meets the earlier transfer's ERR makes the call return Nack with `active` false and INTD set, and the next interrupt stores into the caller's buffer, after the call, iff it is a read and its word shows RXD without ERR or CLKT. |
| IrqRuns.PreemptedRun | src/i2c/i2c_irq.cpp:167-205 | It is reached from the beginning by an asynchronous start followed by a synchronous call. |
| IrqRuns.RunKeepsGates | src/i2c/i2c_irq.cpp:65-205 | Every run of asynchronous starts, interrupts (stray ones too) and synchronous calls keeps the enable bits in step with the record, if no call displaces a transfer in flight or, where one does, no interrupt arrives inside its `start`. |
| IrqRuns.GatesOverRuns | src/i2c/i2c_irq.cpp:69-90 | In every such run, observed between operations: INTD iff `active`, INTR iff active and reading, INTT iff active and writing; hence no interrupt reaches the handler, nor any buffer, after a transfer has finished or been aborted. |
| IrqBooks.BegunKeepsBooks | src/i2c/i2c_irq.cpp:65-94 | `start` keeps the books wherever interrupts come inside it, even if it displaces a transfer in flight and if callbacks start others meanwhile. |
| IrqBooks.RunKeepsBooks | src/i2c/i2c_irq.cpp:65-205 | Every run, synchronous calls at any time and interrupts inside every `start` included, keeps the books: for every transfer, the calls made to its callback are those owed. |
| IrqBooks.CallbacksOverRuns | src/i2c/i2c_irq.cpp:125-142 | In every run each accepted transfer's callback was called at most once; exactly once, with the result first stored, if the transfer was finalized; and never if it was not. |
| IrqBooks.CallbackLostIff | src/i2c/i2c_irq.cpp:167-205 | Exactly when a callback is lost: after a run some accepted transfer with a callback is neither in flight nor finalized iff somewhere in the run a synchronous call that was not rejected came while a transfer with a callback was in flight. |
| IrqBooks.LostForEver | src/i2c/i2c_irq.cpp:167-205 | A callback lost that way is called at no later point of any run. |
| IrqRuns.StrayInterruptStores | src/i2c/i2c_irq.cpp:103-108 | Were the handler entered without regard to the enable bits, it would pop the FIFO into the recorded buffer iff the record is of a read still owed bytes and the block shows RXD without ERR or CLKT. |
| StrayEntries.FinishedReadIsStoredInto | src/i2c/i2c_irq.cpp:99-108 | Such records are reached: after a read finalized with Nack, a stray entry stores into the caller's buffer iff its word shows RXD without ERR or CLKT. |
| StrayEntries.AbortedReadIsStoredInto | src/i2c/i2c_irq.cpp:144-164 | And after a read the watchdog aborted, with the same condition. |
| StrayEntries.EntryBeforeClearing | src/i2c/i2c_irq.cpp:69-79 | An entry after `start` has replaced the record and before its first register write, whether the controller is idle or still at an earlier transfer: the new transfer, which the controller has not heard of, is finalized iff the controller shows DONE, ERR or CLKT at the last word read, with the verdict that flag stands for. |
| StrayEntries.EntryAfterClearing | src/i2c/i2c_irq.cpp:76-79 | After the FIFO and the flags are cleared no entry finalizes it, whatever was in flight before. |
| RunDelivery.RunAboard | src/i2c/i2c_irq.cpp:65-205 | Every run against an honest controller in which no interrupt arrives inside the `start` of a call that displaces a transfer keeps this: the driver's view of C, A and DLEN is the controller's, and the bytes of a transfer in flight have flowed without loss. |
| RunDelivery.AsyncStartsFresh | src/i2c/i2c_irq.cpp:189-205 | In every such run, an asynchronous transfer that is accepted is started in one go, on an empty FIFO with clear flags, right after what an idle controller has on the wire, and the interrupt output stays low until ST is set. |
| RunDelivery.CallbackStartsFresh | src/i2c/i2c_irq.cpp:136-141 | So does a transfer that is started by a callback. |
| RunDelivery.CallbackMeansDelivery | src/i2c/i2c_irq.cpp:116-142 | In every such run, when an interrupt finalizes the transfer in flight, the result its callback is called with is true of the slave: the bytes moved are a prefix of what went over or the other way round, and Ok means that the whole buffer was delivered iff it is at most 65535 bytes long. |
| StaleStarts.SyncDeliversIff | src/i2c/i2c_irq.cpp:96-179 | Exactly when a synchronous transfer's result is true of the slave, against every honest controller, from every state and wherever interrupts come: iff no interrupt is enabled at the call. Otherwise, for every request, an entry inside `start` can make it Ok when nothing has gone over. |
| StaleStarts.StaleRun | src/i2c/i2c_irq.cpp:65-123 | It is reached from the beginning: a synchronous read that displaces an asynchronous one just completed gets Ok and the earlier read's bytes in its buffer, of which its own slave has sent none. |
| QuietLaunch.LaunchIsSilent | src/i2c/i2c_irq.cpp:83-91 | From its first interrupt enable to ST a synchronous `start` meets no interrupt from an honest controller, whatever it displaces and however it was interrupted before. |
| Delivery.PolledWriteDelivers | src/i2c/i2c_bus.cpp:46-69 | End to end, polled write, any FIFO depth and length: what the slave received followed by the FIFO is a prefix of the buffer; after Ok the slave has received exactly the buffer, in order, iff it is at most 65535 bytes long. |
| Delivery.IrqDelivers | src/i2c/i2c_irq.cpp:96-179 | End to end, interrupt-driven, any length, for every pattern of interrupts, if none is enabled at the call or none arrives inside `start`: the slave received a prefix of the buffer, or the buffer begins with the bytes the slave sent first and is otherwise untouched; Ok means DLEN bytes in order with the controller at rest, which are the whole buffer iff it is at most 65535 bytes long; a longer read is never Ok. It stays so through `finalize` and `abort_transfer`. |
| Delivery.IrqShortReadIsUnreachable | src/i2c/i2c_irq.cpp:103-119 | On the same condition only reads of more than 65535 bytes meet the short-read verdict: any other Timeout means that the interrupts were not enough. |
| AfterTransfer.AbortRests | src/i2c/i2c_irq.cpp:144-153 | `abort_transfer` leaves an honest controller, whatever it was doing, with no transfer active, DONE, ERR and CLKT clear and an empty FIFO; of the record only `active` changes. |
| AfterTransfer.WatchdogRests | src/i2c/i2c_irq.cpp:155-165 | A synchronous call, whatever it displaces and wherever interrupts come: if no look of the watchdog sees `done` it returns Timeout and leaves the controller so; otherwise it returns the stored result. |
| AfterTransfer.SyncRests | src/i2c/i2c_irq.cpp:125-179 | If no interrupt is enabled at the call or none arrives inside `start`: unless a synchronous call returns ClockTimeout, no transfer is active and no flag is set afterwards; and if the interrupts were not enough, the FIFO is empty, too. |
| AfterTransfer.FinalizedRests | src/i2c/i2c_irq.cpp:125-135 | In every run in which no interrupt arrives inside the `start` of a displacing call: a transfer finalized with anything but ClockTimeout leaves no transfer active and no flag set before the callback is called. |
| AfterTransfer.RestsOn | src/i2c/i2c_irq.cpp:144-153 | And so it stays: whatever the driver does but start a transfer, and whatever the controller does, nothing more goes over the wire and no flag is set. |
| Delivery.WriteBoundIsTight | src/i2c/i2c.cpp:87-90 | The bound is tight: an honest controller makes a write of 65536 bytes return Ok when the slave has received none. |
| RegisterDevice.PolledRegisterRoundTrip | inc/i2c_bus.hpp:62-73 | `write_reg(r, v)` Ok, then `read_reg(r)` of any length Ok, yields v over the polled transport, any honest controller and any honest slave. |
| RegisterDevice.IrqRegisterRoundTrip | src/i2c/i2c_irq.cpp:167-187 | The same over the interrupt-driven transport, for every pattern of interrupts, if none is enabled at the first call or none arrives inside its `start`. |
| Attainable.PolledCanSucceed | src/i2c/i2c_bus.cpp:46-96 | Success is possible: whatever happened before, for every address up to 0x7F, length from 1 to 65535, FIFO depth from 1 and contents, an honest controller can go on so that a polled write or read returns Ok with len + 1 spins, the slave and the buffer holding the same bytes. |
| Attainable.IrqCanSucceed | src/i2c/i2c_irq.cpp:96-179 | The same over the interrupt-driven transport, with a single interrupt and a single look at `done`. |
| ConsoleRuns.WholeLines | freestanding/smp.cpp:38-46 | Over all interleavings: the console shows whole messages followed by a prefix of the holder's; each thread's messages in its order, and the n-th tick line of core c reads tick n; `g_ticks[c]` is the number of core c's whole tick lines, and one more while its handler is between counting a tick and freeing the lock. |
| ConsoleRuns.DemoLines | freestanding/smp.cpp:69-77 | With the programs the cores really run, every whole line is "[core c] online", at most once per core, or that core's next tick line. |
| Console.TickLineReads | freestanding/smp.cpp:41-43 | Read off its characters, the n-th tick line of core c < 10 says: core c, tick n modulo 2^64. |
| Console.OnlineReads | freestanding/smp.cpp:74 | And the other message says that core c is online. |
| Console.TickedIs | freestanding/smp.cpp:41-43 | Only one string says so: "[core ", the digit c, "] timer tick #", the canonical numeral of n, a newline. |
| Console.TicksDiffer | freestanding/smp.cpp:41-43 | Tick lines of different cores differ, and those of one core whose numbers differ modulo 2^64. |
| Console.OnlineDiffers | freestanding/smp.cpp:74 | The online lines of different cores differ, and none is a tick line. |
| ConsoleProgress.TickIsServed | freestanding/smp.cpp:38-46 | Progress: from any state whose lock is free, a timer interrupt of core c and enough steps of that core print the line for its next tick, count it, free the lock again and change nothing else. |
| ConsoleProgress.ThreadIsServed | freestanding/smp.cpp:73-75 | A thread that waits for the free lock and is left to run prints its next message and frees the lock. |
| ConsoleProgress.NextTickComes | freestanding/smp.cpp:38-46 | In every run, whenever the lock is free: that line is the core's (k + 1)-th tick line, if k have been printed. |
| Mmu.TcrSelectsThisWalk | freestanding/mmu.cpp:51-64 | TCR selects a 39-bit input range, a 4 KB granule, 40-bit output addresses, no TTBR1 walks and write-back write-allocate inner shareable table reads; TCR and MAIR in numbers. |
| Mmu.IdentityMap | freestanding/mmu.cpp:12-64 | A VMSAv8-64 walk under the TCR and MAIR values written, of every 64-bit address, every 39-bit one among them, through the tables as built: PA = VA, write-back, inner shareable below 0x3F000000; PA = VA, Device from there to 0x7FFFFFFF; a fault everywhere else. Wherever there is no fault the kernel may read, write and execute, a user program only execute, and the entry is global and secure. |
| IrqRuns.IssueFirst | src/i2c/i2c_irq.cpp:189-205 | On a free controller the first acceptable request of a callback is started and all later ones are refused. |
| IrqBooks.CallbackMayStart | src/i2c/i2c_irq.cpp:136-141 | A callback that starts a transfer finds the controller free, and the new transfer's record and interrupt enables survive the return through `finalize` and `handle_irq`. |
| FreshStart.PrimedIsFresh | src/i2c/i2c_bus.cpp:31-54 | A polled transfer starts on an empty FIFO with DONE, ERR and CLKT clear and all of DLEN to go, whatever the controller was doing before and whatever it does between any two register writes. |
| FreshStart.ArmedIsFresh | src/i2c/i2c_irq.cpp:65-94 | No stale completion: the same for `start`; and if no interrupt was enabled before, then between its first and its last access, the one that sets ST, the interrupt output stays low at every moment: nothing left by an earlier finished or aborted transfer can complete the new one. |
| FreshStart.ArmedAnswered | src/i2c/i2c_irq.cpp:76-91 | `start` makes 17 accesses, all of them writes any controller answers. |
| EndToEnd.StepTracks | src/i2c/i2c_bus.cpp:55-66 | Conservation: every step of the pump keeps it too. A write's moved prefix is the bytes sent followed by the FIFO; a read's received bytes are the moved prefix followed by the FIFO. |
| EndToEnd.AdvanceTracks | src/i2c/i2c_bus.cpp:55-66 | The same over any number of steps. |
| EndToEnd.FlowMeans | src/i2c/i2c_bus.cpp:84-93 | What a deciding word means to the slave: Ok means that DLEN bytes went over, up to 65535 exactly the buffer with an empty FIFO; the short-read verdict only exists for reads longer than 65535 bytes; Nack means that the slave did not acknowledge, ClockTimeout that it did and stretched too long; and after any but ClockTimeout the controller has stopped. |
| EndToEnd.VerdictMeans | src/i2c/i2c_bus.cpp:84-93 | The same for the deciding word of a whole stream. |
| Delivery.PolledReadDelivers | src/i2c/i2c_bus.cpp:71-96 | End to end, polled read: the bytes received are the buffer's first i cells followed by the FIFO and no other cell changed; Ok means exactly all of them, in order; up to 65535 bytes the short-read verdict is unreachable. |
| RegisterDevice.WireRoundTrip | inc/i2c_bus.hpp:62-73 | On the wire: after a two-byte write and a pointer write, an honest register file behind an auto-incrementing pointer returns the value written, then the registers that follow. |
| Interrupts.LowestSetBit | src/interrupt/interrupt.cpp:9-14 | The least set bit, or -1 iff there is none; the shifting loop terminates. |
| Interrupts.Irq.Dispatch | src/interrupt/interrupt.cpp:74-106 | At most one handler is invoked, on the registers: the lowest set bit n of the four timer lines of this core's CORE_IRQ_SOURCE gives slot 64 + n; else, if its bit 8 is set, the lowest set bit of IRQ_Pending1 its slot, else that of IRQ_Pending2 plus 32; else none. That is the first pending source in the order 64..67, then 0..63. |
| Interrupts.FirstIs | src/interrupt/interrupt.cpp:80-105 | The first source in scan order is the unique minimum of the pending set by rank. |
| Interrupts.Irq.SetHandler | inc/interrupt.hpp:111-116 | Sets one of the 72 slots and no other; an index out of range changes nothing and has no handler. |
| Interrupts.Irq.Enable | src/interrupt/interrupt.cpp:26-32 | Exactly one bit is set: bit n of Enable_IRQs_1, or bit n - 32 of Enable_IRQs_2. |
| Interrupts.Irq.IsEnabled | src/interrupt/interrupt.cpp:48-53 | Reports that bit. |
| Interrupts.QuietedPending | src/interrupt/interrupt.cpp:74-106 | A handler that quiets its own source removes just that source from the pending set and keeps the GPU bit in step. |
| Interrupts.Drain | src/interrupt/interrupt.cpp:74-106 | Repeated dispatch serves each pending source exactly once, in the order of priority, and empties the set in exactly as many calls as there were sources. |
| Interrupts.DrainsIffAllHandled | src/interrupt/interrupt.cpp:80-105 | The set is ever emptied iff every pending source has a handler. |
| Interrupts.UnhandledBlocks | src/interrupt/interrupt.cpp:84-85 | A pending source without a handler is never passed: no source of lower priority is served. |
| Mmu.BuildTables | freestanding/mmu.cpp:40-49 | Every one of the 1024 entries after the two loops. |
| Mmu.BuiltIs | freestanding/mmu.cpp:40-49 | The entries in numbers: i * 0x200000 + 0x705 below index 504 and + 0x401 from there, 0x40000401 for the second gigabyte, the address of the second table + 3 for the first, 0 elsewhere. |
| Mmu.NormalLeaf | freestanding/mmu.cpp:32-34 | A normal block translates every offset to itself, write-back through MAIR attribute 1, inner shareable, with all rights for the kernel. |
| Mmu.DeviceLeaf | freestanding/mmu.cpp:35-37 | A device block translates every offset to itself, Device-nGnRnE through MAIR attribute 0, with all rights for the kernel. |
| Mmu.Level2Walk | freestanding/mmu.cpp:41-44 | Below 1 GB the level 2 walk is the identity, with the memory type changing at 0x3F000000 exactly. |
| Console.StepKeepsInv | freestanding/uart.cpp:32-42 | Every step of every core, thread or interrupt handler, keeps the console's invariant. |
| ConsoleRuns.RunKeepsInv | freestanding/smp.cpp:38-77 | So does every interleaving, from the start. |
| ConsoleRuns.MutualExclusion | freestanding/uart.cpp:32-42 | Over all interleavings of any number of cores with timer interrupts: at most one context is inside the lock, and `g_lock` is 1 iff one is. |
| Console.TickLineComes | freestanding/smp.cpp:41-43 | The handler's pieces, with the increment in the middle, spell the next tick line. |
| Console.TimerIsr | freestanding/smp.cpp:38-46 | The handler's body in the source's order, on its own: the next tick line, whose text `Console.TickLineReads` pins, one counter incremented. |
| Console.CountedIs | freestanding/smp.cpp:42 | The n-th tick line shows n modulo 2^64. |
| Printing.DigitsReadBack | freestanding/libc_min.cpp:43-50 | The digits of a number have its value. |
| Printing.DigitsAreCanonical | freestanding/libc_min.cpp:43-50 | They are the only digits without a leading zero that do. |
| Printing.NumeralReadsBack | freestanding/uart.cpp:74-80 | A printed numeral parses back to its number, and begins with 0 only if it is 0. |
| Printing.DecimalIsNumeral | freestanding/uart.cpp:74-80 | A string of decimal digits without a leading zero is the numeral of the number it parses to, and no other is. |
| Printing.DecFits | freestanding/uart.cpp:75 | The 20-digit guard never truncates a 64-bit value. |
| Printing.UintFitsIff | freestanding/libc_min.cpp:44 | The 24-digit guard never truncates in a base iff the base is at least 7, so never in bases 10 and 16. |
| Printing.Uart.PrintUint | freestanding/libc_min.cpp:43-50 | Prints the numeral, every base and value; the last 24 digits of it in bases below 7. |
| Printing.Uart.Dec | freestanding/uart.cpp:74-80 | Prints the canonical decimal numeral of every 64-bit value. |
| Printing.Uart.Hex | freestanding/uart.cpp:66-72 | Prints 0x and the sixteen digits. |
| Printing.FixedReadsBack | freestanding/uart.cpp:68-71 | k hexadecimal digits read back as the value iff it is below 16^k. |
| Printing.HexReadsBack | freestanding/uart.cpp:66-72 | The sixteen digits of every 64-bit value parse back to it. |
| Printing.PutsLine | freestanding/uart.cpp:59-64 | A string without a newline is put as it is, and a carriage return goes before the newline at its end. |
| Printing.Uart.PutString | freestanding/uart.cpp:59-64 | A carriage return goes before every newline. |
| Libc.Memmove | freestanding/libc_min.cpp:28-34 | For every length and overlap the destination holds the old source and every other byte is unchanged. |
| Libc.Memcpy | freestanding/libc_min.cpp:21-26 | The exact heap a forward copy leaves on any overlap: where it overtakes its source, the first d - s bytes repeat. |
| Libc.MemcpyIsMemmoveIff | freestanding/libc_min.cpp:21-34 | `memcpy` agrees with `memmove` for all contents iff the destination does not begin strictly inside the source. |
| Libc.Memcmp | freestanding/libc_min.cpp:36-41 | Zero iff the ranges are equal, else the difference of the first bytes that differ. |
| Gpio.WrittenIsUpdate | src/gpio/gpio.cpp:28-36 | A packed write updates the mode of one pin of 54 and no other; an invalid pin changes nothing. |
| Gpio.WrittenBits | src/gpio/gpio.cpp:28-36 | Bit by bit: pin n has bits 3 (n mod 10) to 3 (n mod 10) + 2 of register n / 10, which a write replaces by the mode; no other bit changes, and none for n > 53. |
| Gpio.FieldBits | src/gpio/gpio.cpp:45-50 | Reading a pin returns those three bits. |
| Gpio.RunReadsLast | src/gpio/gpio.cpp:28-89 | After any run of `write`, `output` and `input`, a pin reads the last mode it was given, or what it read before. |
| Gpio.GpioBlock.Write | src/gpio/gpio.cpp:28-36 | In place on the select registers, as an update of the 54 modes. |
| Gpio.GpioBlock.Output | src/gpio/gpio.cpp:72-82 | Mode 1, whatever the mode was. |
| Gpio.GpioBlock.Input | src/gpio/gpio.cpp:84-89 | Mode 0, whatever the mode was. |
| Gpio.GpioBlock.Read | src/gpio/gpio.cpp:45-50 | The pin's mode; zero for an invalid pin. |

## Left out

- `bus_init` of both transports (pin muxing, divider, installing the handler), constructors' defaults, `disable`, `get_status` and the other getters: easy members.
- IrqTransport.Bcm2837I2cIrqTransport.CallBack: a callback may start asynchronous transfers, any number of them; one that makes a synchronous call or calls the handler itself is not modelled.
- IrqTransport.Bcm2837I2cIrqTransport.WaitForIrq: WFI is a moment at which any number of gated interrupts arrive; interrupts between the end of `start` and the first look at `done` count as one such moment. Inside `start` they are taken after each step up to the first interrupt enable; from there to ST none can come, which `QuietLaunch.LaunchIsSilent` proves for synchronous calls and `RunDelivery.AsyncStartsFresh` for asynchronous ones. Interrupts in that last part of an asynchronous `start` that is accepted after a displacing call has left interrupts enabled are not modelled. Interrupts between the lines of `abort_transfer` after its first store, and between two statements of the wait loop, are not told apart from those of the neighbouring moment.
- IrqRuns.GatesOverRuns: stated for runs in which no interrupt arrives inside the `start` of a call that displaces a transfer, because it is false of others (`IrqRuns.PreemptedRun`); and between operations, as intermediate states of `start` and `finalize` have some enable bits set and others not.
- Delivery.IrqDelivers: TXW and RXR are not modelled as thresholds. The honest controller may interrupt whenever an enabled direction is active, which only adds runs.
- Delivery.WriteBoundIsTight: one witness, polled; that Ok above 65535 bytes is never delivery is proved for both transports.
- RunDelivery.CallbackMeansDelivery: the same runs; false of others (`StaleStarts.StaleRun`). It states what holds when the callback is called; later transfers may write to the same buffer.
- The client's buffers are not changed by the client while a transfer is in flight.
- Barriers (`mem_barrier`), `volatile`, `wfe`, `sev`, cache maintenance and weak memory: sequential consistency is assumed.
- Electrical timing, clock stretching as a duration, multi-master arbitration.
- Interrupts.Irq.Enable: bank operations are for IRQ numbers below 64; above that the source shifts a 32-bit word by 32 and more, which C++ leaves undefined.
- Interrupts.Irq.IsEnabled: the same. `disable` writes a separate register that the plain memory of the model would not connect with `isEnabled`.
- Interrupts.Drain: handlers are tokens; what a handler does is that its own source becomes quiet.
- Mmu.IdentityMap: the tables' addresses are 4096-aligned and below 2^40, as `alignas(4096)` and the machine provide; TLB maintenance, the switch in SCTLR and its WXN bit, and PSTATE.PAN are not modelled.
- ConsoleRuns.WholeLines: with locking enabled from the start. Interrupts are unmasked before the thread takes the lock (freestanding/smp.cpp:73-77), so a handler can spin for ever on a lock its own thread holds; progress is proved from a free lock (`ConsoleProgress.TickIsServed`). Output before locking is enabled is the parameter `boot`; the crash path in freestanding/exceptions.cpp, which takes no lock, is not modelled.
- Console.TickLineReads: core numbers of one digit; there are four cores.
- Console.TimerIsr: waiting for room in the UART's FIFO, and re-arming the timer, are no-ops.
- `printf`'s format strings, `memset`, and the formatting of negative numbers.
- src/clock/clock.cpp (two conflicting layouts of CTL), src/spi/spi.cpp, the one-bit GPIO registers, inc/i2c_dev.hpp, inc/mmio.hpp, src/main.cpp, the assembly files: easy members or system calls.
