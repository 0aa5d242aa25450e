/** 32-bit words, the fixed sizes of the queue, and the arithmetic of the ADD command. */
module Words {

  /** A `uint32_t`. */
  type Word = x: int | 0 <= x < 0x1_0000_0000

  const TASK_WORDS: nat := 32

  const ACK_CLEAR: Word := 0xc1ee7000
  const NOOP: Word := 0x1337C0DE
  const ADD: Word := 0xC0DE0ADD
  const REGISTER_PROGRAM: Word := 0x73215737
  const HANDLE: Word := 0x1ee7C0DE

  /** The words of one task slot. */
  type Task = t: seq<Word> | |t| == TASK_WORDS witness seq(TASK_WORDS, _ => 0)

  /** The two words of an ack slot that the queue uses. */
  datatype Ack = Ack(taskId: Word, retval: Word)
  {
    predicate Clear() { taskId == ACK_CLEAR }
  }

  function Wrap(x: int): Word
  {
    x % 0x1_0000_0000
  }

  /** A word read back as a C `int`. */
  function Signed(w: Word): int
  {
    if w < 0x8000_0000 then w else w - 0x1_0000_0000
  }

  /** The accumulator of the ADD loop after `rounds` iterations, wrapping at every step. */
  function AddLoop(a: int, b: int, rounds: nat): Word
  {
    if rounds == 0 then 0 else Wrap(AddLoop(a, b, rounds - 1) + (a + (rounds - 1) + b))
  }

  function Rounds(task: Task): nat
  {
    if Signed(task[2]) <= 0 then 0 else Signed(task[2])
  }

  /** What the ADD command computes from its task words. */
  function Sum(task: Task): Word
  {
    AddLoop(task[3], task[4], Rounds(task))
  }

  lemma WrapAbsorbs(x: int, y: int)
    ensures Wrap(Wrap(x) + y) == Wrap(x + y)
  {
  }

  lemma Triangle(m: nat)
    requires m > 0
    ensures m * (m - 1) / 2 == (m - 1) * (m - 2) / 2 + (m - 1)
  {
    assert m * (m - 1) == (m - 1) * (m - 2) + 2 * (m - 1);
  }

  /** The wrapping loop has the closed form of the exact sum, wrapped once. */
  lemma {:induction false} AddLoopClosedForm(a: int, b: int, m: nat)
    ensures AddLoop(a, b, m) == (m * (a + b) + m * (m - 1) / 2) % 0x1_0000_0000
  {
    if m > 0 {
      AddLoopClosedForm(a, b, m - 1);
      var exact := (m - 1) * (a + b) + (m - 1) * (m - 2) / 2;
      WrapAbsorbs(exact, a + (m - 1) + b);
      Triangle(m);
      assert (m - 1) * (a + b) + (a + b) == m * (a + b);
    }
  }

  /** The ADD command's reading of a task: `k` rounds and the summands `a` and `b`. */
  predicate AddsUp(task: Task, k: int, a: int, b: int)
  {
    k == (if task[2] < 0x8000_0000 then task[2] else 0) && a == task[3] && b == task[4]
  }

  /** The ADD command on any task: word 2, read as a signed count, many rounds of the sum of
      words 3 and 4 and the round's number; none for a negative count. */
  lemma SumIsExact(task: Task, k: int, a: int, b: int)
    requires AddsUp(task, k, a, b)
    ensures Sum(task) == (k * (a + b) + k * (k - 1) / 2) % 0x1_0000_0000
  {
    AddLoopClosedForm(task[3], task[4], Rounds(task));
  }

  /** The words that `fifo_addition(adds)` packs into its slot. */
  predicate IsAddition(task: Task, adds: Word)
  {
    task[..5] == [0xC0DE_0ADD, 0x1EE7_C0DE, adds, 1, 2]
  }

  lemma AdditionWords(task: Task, adds: Word)
    requires IsAddition(task, adds)
    ensures task[0] == 0xC0DE_0ADD && AddsUp(task, if adds < 0x8000_0000 then adds else 0, 1, 2)
  {
    assert task[0] == task[..5][0] && task[2] == task[..5][2] && task[3] == task[..5][3] && task[4] == task[..5][4];
  }
}
