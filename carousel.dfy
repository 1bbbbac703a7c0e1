/** The preview-image carousel (src/components/ImagePreview.tsx): previous and next wrap around
    the list, and a thumbnail click selects its image. The handlers exist only for a non-empty
    list (the component returns a placeholder before defining them). */
module Carousel {

  /** handlePrevImage: one back, from the first image to the last. */
  function Prev(current: nat, count: nat): (r: nat)
    requires count > 0
    ensures current < count ==> r < count
    ensures current == 0 ==> r == count - 1
  {
    if current > 0 then current - 1 else count - 1
  }

  /** handleNextImage: one forward, from the last image to the first. */
  function Next(current: nat, count: nat): (r: nat)
    requires count > 0
    ensures r < count
    ensures current == count - 1 ==> r == 0
  {
    if current < count - 1 then current + 1 else 0
  }

  /** A thumbnail click: the clicked thumbnail's position becomes current. */
  function SelectThumbnail(index: nat, count: nat): nat
    requires index < count
  {
    index
  }

  /** `index === currentImageIndex`: the test that gives a thumbnail the highlighted ring. */
  predicate Ringed(t: nat, current: nat) {
    t == current
  }

  /** The thumbnails drawn with the highlighted ring. */
  function RingedThumbnails(current: nat, count: nat): set<nat> {
    set t: nat | t < count && Ringed(t, current)
  }

  /** The "n / total" counter over the main image. */
  function CounterLabel(current: nat, count: nat): (nat, nat) {
    (current + 1, count)
  }

  /** After a thumbnail click exactly that thumbnail is ringed, the counter shows a position between
      1 and the number of images, and the image shown is the one reached from the first image by
      pressing next once per earlier thumbnail. */
  lemma ThumbnailClick(index: nat, count: nat)
    requires index < count
    ensures RingedThumbnails(SelectThumbnail(index, count), count) == {index}
    ensures 1 <= CounterLabel(SelectThumbnail(index, count), count).0 <= CounterLabel(SelectThumbnail(index, count), count).1
    ensures SelectThumbnail(index, count) == NextTimes(0, count, index)
  {
    assert index in RingedThumbnails(index, count);
    NextTimesBelowEnd(0, count, index);
  }

  /** Next undoes previous and previous undoes next. */
  lemma PrevNextInverse(current: nat, count: nat)
    requires current < count
    ensures Next(Prev(current, count), count) == current
    ensures Prev(Next(current, count), count) == current
  {
  }

  /** The index after `steps` presses of next. */
  function NextTimes(current: nat, count: nat, steps: nat): (r: nat)
    requires count > 0
    decreases steps
  {
    if steps == 0 then current else Next(NextTimes(current, count, steps - 1), count)
  }

  /** Presses of next compose: a + b presses are a presses followed by b. */
  lemma {:induction false} NextTimesAdd(current: nat, count: nat, a: nat, b: nat)
    requires count > 0
    ensures NextTimes(current, count, a + b) == NextTimes(NextTimes(current, count, a), count, b)
    decreases b
  {
    if b > 0 {
      NextTimesAdd(current, count, a, b - 1);
    }
  }

  /** Before the end of the list, each press moves one image on. */
  lemma {:induction false} NextTimesBelowEnd(current: nat, count: nat, steps: nat)
    requires current + steps < count
    ensures NextTimes(current, count, steps) == current + steps
    decreases steps
  {
    if steps > 0 {
      NextTimesBelowEnd(current, count, steps - 1);
    }
  }

  /** Pressing next once per image comes back to the image one started from. */
  lemma FullCircle(current: nat, count: nat)
    requires current < count
    ensures NextTimes(current, count, count) == current
  {
    NextTimesBelowEnd(current, count, count - 1 - current);
    assert NextTimes(current, count, count - current) == 0;
    NextTimesAdd(current, count, count - current, current);
    NextTimesBelowEnd(0, count, current);
  }
}
