/** What Position.ApplyFill does to any book whatever, sound or not, in terms of its inputs:
    when it succeeds, and what a failing call leaves behind. */
module FillEffects {
  import opened Int64
  import opened Rounding
  import opened Ledger
  import opened Netting

  /** The fill has a quantity and a side, and the new quantity is representable. */
  predicate Counted(b: Book, f: Fill) {
    f.qty > 0 && f.side != UnknownSide && Fits(b.qty + Delta(f))
  }

  function NewQty(b: Book, f: Fill): int64
    requires Counted(b, f)
  {
    b.qty + Delta(f)
  }

  /** Settled as an opening or an increase. */
  predicate Adds(b: Book, f: Fill)
    requires Counted(b, f)
  {
    b.qty == 0 || (SameSign(b.qty, NewQty(b, f)) && AbsQty(NewQty(b, f)) > AbsQty(b.qty))
  }

  /** Settled as a close of everything and an opening the other way. */
  predicate Flips(b: Book, f: Fill)
    requires Counted(b, f)
  {
    b.qty != 0 && NewQty(b, f) != 0 && !SameSign(b.qty, NewQty(b, f))
  }

  /** The quantity handed to closeLeg. */
  function ToClose(b: Book, f: Fill): int64
    requires Counted(b, f)
  {
    if NewQty(b, f) != 0 && SameSign(b.qty, NewQty(b, f)) then f.qty else AbsQty(b.qty)
  }

  /** The cost it releases, and the cost it leaves. */
  function Freed(b: Book, f: Fill): int64
    requires Counted(b, f)
  {
    MulDiv(b.basis, AbsQty(ToClose(b, f)), AbsQty(b.qty))
  }

  function Left(b: Book, f: Fill): int
    requires Counted(b, f)
  {
    if AbsQty(ToClose(b, f)) == AbsQty(b.qty) then 0 else b.basis - Freed(b, f)
  }

  /** The PnL before cents. */
  function Gain(b: Book, f: Fill): int
    requires Counted(b, f)
  {
    var proceeds := f.price * ToClose(b, f);
    if b.qty > 0 then proceeds - Freed(b, f) else Freed(b, f) - proceeds
  }

  /** closeLeg runs and gets as far as the basis. */
  predicate Closes(b: Book, f: Fill) {
    && Counted(b, f) && !Adds(b, f)
    && Fits(f.price * ToClose(b, f)) && Fits(Gain(b, f)) && Fits(b.basis - Freed(b, f))
  }

  /** The cents a fill realizes. */
  function Booked(b: Book, f: Fill): int {
    if Closes(b, f) then RoundToCents(Gain(b, f)) else 0
  }

  /** closeLeg runs to its end. */
  predicate Realizes(b: Book, f: Fill) {
    Closes(b, f) && Fits(b.realized + Booked(b, f))
  }

  /** The checks a fill must pass. */
  predicate Accepted(b: Book, f: Fill) {
    && Counted(b, f)
    && if Adds(b, f) then Fits(f.price * f.qty) && Fits(b.basis + f.price * f.qty)
       else Realizes(b, f) && (Flips(b, f) ==> Fits(f.price * AbsQty(NewQty(b, f))))
  }

  lemma CloseEffect(b: Book, f: Fill)
    requires Counted(b, f) && !Adds(b, f)
    ensures CloseLeg(b, ToClose(b, f), f.price, b.qty) ==
            if !Closes(b, f) then Applied(b, Err(OverflowError))
            else
              var reduced := b.(basis := Left(b, f));
              if Realizes(b, f) then Applied(reduced.(realized := b.realized + Booked(b, f)), Ok(Booked(b, f)))
              else Applied(reduced, Err(OverflowError))
  {
    hide CheckedMul, MulDiv, RoundToCents;
  }

  lemma OpenEffect(b: Book, qty: int64, price: int64)
    ensures OpenLeg(b, qty, price) ==
            if Fits(price * qty) && Fits(b.basis + price * qty)
            then Applied(b.(basis := b.basis + price * qty), Ok(())) else Applied(b, Err(OverflowError))
  {
    hide CheckedMul;
  }

  /** Which legs a fill runs, on any book. */
  lemma Branches(b: Book, f: Fill)
    ensures !Counted(b, f) ==>
              Apply(b, f) == Applied(b, Err(if f.qty <= 0 || f.side == UnknownSide then InvalidArgument else OverflowError))
    ensures Counted(b, f) && Adds(b, f) ==>
              var leg := OpenLeg(b, f.qty, f.price);
              Apply(b, f) ==
              if leg.result.Err? then Applied(leg.book, Err(leg.result.error))
              else Applied(Stamp(leg.book, NewQty(b, f), f),
                           Ok(FillOutcome(0, b.qty == 0, false, b.qty != 0, false)))
    ensures Counted(b, f) && !Adds(b, f) ==>
              var leg := CloseLeg(b, ToClose(b, f), f.price, b.qty);
              if leg.result.Err? then Apply(b, f) == Applied(leg.book, Err(leg.result.error))
              else
                var open := OpenLeg(leg.book, AbsQty(NewQty(b, f)), f.price);
                if Flips(b, f) && open.result.Err? then Apply(b, f) == Applied(open.book, Err(open.result.error))
                else
                  && Apply(b, f).book == Stamp(if Flips(b, f) then open.book else leg.book, NewQty(b, f), f)
                  && Apply(b, f).result.Ok?
                  && Apply(b, f).result.value.realizedDelta == leg.result.value
  {
    hide CloseLeg, OpenLeg, AbsQty;
  }

  /** A fill succeeds exactly when it passes the checks; then the quantity moves by its signed
      size and the realized total by the reported delta. A failing fill keeps the quantity. */
  lemma ApplyMoves(b: Book, f: Fill)
    ensures Apply(b, f).result.Ok? <==> Accepted(b, f)
    ensures Apply(b, f).result == Err(InvalidArgument) <==> f.qty <= 0 || f.side == UnknownSide
    ensures var ap := Apply(b, f);
            && (ap.result.Err? ==> ap.book.qty == b.qty)
            && (ap.result.Ok? ==>
                  && ap.book.qty == b.qty + Delta(f)
                  && ap.result.value.realizedDelta == Booked(b, f)
                  && ap.book.realized == b.realized + Booked(b, f)
                  && (b.qty == 0 ==> Booked(b, f) == 0))
  {
    Effects(b, f);
  }

  /** The whole effect on basis and realized total. */
  lemma Effects(b: Book, f: Fill)
    ensures Apply(b, f).result.Ok? <==> Accepted(b, f)
    ensures Apply(b, f).result == Err(InvalidArgument) <==> f.qty <= 0 || f.side == UnknownSide
    ensures var ap := Apply(b, f);
            if Accepted(b, f) then
              && ap.book.qty == b.qty + Delta(f)
              && ap.result.value.realizedDelta == Booked(b, f)
              && ap.book.realized == b.realized + Booked(b, f)
            else
              ap.book == if !Closes(b, f) then b
                         else if Realizes(b, f) then b.(basis := Left(b, f), realized := b.realized + Booked(b, f))
                         else b.(basis := Left(b, f))
  {
    hide Apply, CloseLeg, OpenLeg, Gain, Freed, AbsQty, SameSign, Booked;
    Branches(b, f);
    AbsTwice(b.qty);
    if Counted(b, f) {
      if Adds(b, f) {
        OpenEffect(b, f.qty, f.price);
        NothingBooked(b, f);
      } else {
        CloseEffect(b, f);
        OpenEffect(CloseLeg(b, ToClose(b, f), f.price, b.qty).book, AbsQty(NewQty(b, f)), f.price);
      }
    }
  }

  lemma AbsTwice(q: int64)
    ensures AbsQty(AbsQty(q)) == AbsQty(q)
  {
  }

  lemma NothingBooked(b: Book, f: Fill)
    requires Counted(b, f) && Adds(b, f)
    ensures Booked(b, f) == 0
  {
  }

  /** A failing call is not atomic. On any book it has changed something if and only if it was
      not adding, closeLeg got as far as the basis, and either the basis moved or non-zero cents
      still fitted into the realized total. */
  lemma FailureChangesBookIff(b: Book, f: Fill)
    requires Apply(b, f).result.Err?
    ensures Apply(b, f).book != b <==>
            Closes(b, f) && (Left(b, f) != b.basis || (Realizes(b, f) && Booked(b, f) != 0))
  {
    hide Apply, Gain, Freed, Booked;
    Effects(b, f);
  }

  /** The guard of the one path on which a failing call moves the realized total: a flip whose
      close books cents and whose residual overflows its notional. */
  predicate Strands(b: Book, f: Fill) {
    Realizes(b, f) && Booked(b, f) != 0 && Flips(b, f) && !Fits(f.price * AbsQty(NewQty(b, f)))
  }

  lemma StrandsIff(b: Book, f: Fill)
    ensures Apply(b, f).result.Err? && Apply(b, f).book.realized != b.realized <==> Strands(b, f)
  {
    hide Apply, Gain, Freed, Booked;
    Effects(b, f);
  }

  // ---- the same on sound books, in the terms of the netting rule ----

  lemma SoundTerms(b: Book, f: Fill)
    requires Sound(b) && Valid(f) && Counted(b, f) && NewQty(b, f) != MIN64
    ensures var c, o := Closed(b.qty, Delta(f)), Opened(b.qty, Delta(f));
            && (Adds(b, f) <==> c == 0)
            && (c > 0 ==>
                  && ToClose(b, f) == c && Freed(b, f) == Released(b, c) && Gain(b, f) == ExactPnl(b, f)
                  && (Flips(b, f) <==> o > 0) && (o > 0 ==> AbsQty(NewQty(b, f)) == o)
                  && (Closes(b, f) <==> Fits(f.price * c)))
  {
    hide MulDiv, CloseLeg, RoundToCents;
    var c := Closed(b.qty, Delta(f));
    if c > 0 { ClosingLeg(b, c, f.price); }
  }

  /** On a sound book acceptance is representability, and the stranding guard reads: closes and
      opens, proceeds and cents fit, the residual notional does not. */
  lemma SoundGuards(b: Book, f: Fill)
    requires Sound(b) && Valid(f) && b.qty + Delta(f) != MIN64
    ensures Accepted(b, f) <==> Representable(b, f)
    ensures var c, o := Closed(b.qty, Delta(f)), Opened(b.qty, Delta(f));
            && Booked(b, f) == (if c > 0 && Fits(f.price * c) then Cents(ExactPnl(b, f)) else 0)
            && (Strands(b, f) <==>
                  && c > 0 && o > 0 && Fits(f.price * c) && Cents(ExactPnl(b, f)) != 0
                  && Fits(b.realized + Cents(ExactPnl(b, f))) && !Fits(f.price * o))
  {
    hide Apply, MulDiv, RoundToCents, Representable, CloseLeg;
    Effects(b, f);
    FillNets(b, f);
    var c := Closed(b.qty, Delta(f));
    if c > 0 {
      ClosingBranch(b, f);
      ClosingLeg(b, c, f.price);
    }
    if Counted(b, f) { SoundTerms(b, f); }
  }
}
