/** The create-event wizard, frontend/src/components/CreateEvent/CreateEvent.jsx:
    its four steps, the form data it accumulates, and the ticket list, price
    and capacity it sends on the last step. The form's number fields are
    read as in the backend's `Events.EventForm`: `None` when empty. */
module Wizard {
  import opened Wrappers
  import opened Tickets
  import Events

  const StepCount: nat := 4

  /** The current step and the form values gathered so far. */
  datatype Wizard = Wizard(step: nat, data: map<string, string>)

  const Initial: Wizard := Wizard(1, map[])

  predicate InRange(w: Wizard) {
    1 <= w.step <= StepCount
  }

  /** `nextStep`: below the last step and with the current values valid,
      merge them over the stored data and advance; otherwise stay. */
  function NextStep(w: Wizard, valid: bool, current: map<string, string>): (r: Wizard)
    ensures InRange(w) ==> InRange(r)
    ensures r.step == w.step + 1 <==> w.step < StepCount && valid
    ensures r.step != w.step + 1 ==> r == w
    ensures r.step == w.step + 1 ==>
      r.data.Keys == w.data.Keys + current.Keys
      && (forall k :: k in current ==> r.data[k] == current[k])
      && (forall k :: k in w.data && k !in current ==> r.data[k] == w.data[k])
  {
    if w.step < StepCount && valid then Wizard(w.step + 1, w.data + current) else w
  }

  /** `prevStep`: back one step, never below the first. */
  function PrevStep(w: Wizard): (r: Wizard)
    ensures InRange(w) ==> InRange(r)
    ensures w.step > 1 ==> r.step + 1 == w.step
    ensures w.step <= 1 ==> r.step == w.step
    ensures r.data == w.data
  {
    if w.step > 1 then w.(step := w.step - 1) else w
  }

  /** Going forward and back returns to the same step, keeping the merged data. */
  lemma NextThenPrev(w: Wizard, current: map<string, string>)
    requires InRange(w) && w.step < StepCount
    ensures PrevStep(NextStep(w, true, current)).step == w.step
  {
  }

  /** The ticket list `onSubmit` builds: General Admission when its price is
      present and above zero (100 units unless given), then VIP likewise
      (50 units unless given), none sold. */
  function DraftTickets(form: Events.EventForm): (r: seq<TicketLine>)
    ensures |r| == (if Events.PositivePrice(form.generalPrice) then 1 else 0)
                   + (if Events.PositivePrice(form.vipPrice) then 1 else 0)
    ensures SumSold(r) == 0
    ensures forall i :: 0 <= i < |r| ==> r[i].price > 0
    ensures Events.PositivePrice(form.generalPrice) ==>
      r[0] == TicketLine(Events.GeneralAdmission, form.generalPrice.value,
                         Events.IntOr(form.generalQuantity, Events.DefaultGeneralQuantity), 0)
    ensures Events.PositivePrice(form.vipPrice) ==>
      r[|r| - 1] == TicketLine(Events.Vip, form.vipPrice.value, Events.IntOr(form.vipQuantity, Events.DefaultVipQuantity), 0)
  {
    var general := if Events.PositivePrice(form.generalPrice)
      then [NewLine(Events.GeneralAdmission, form.generalPrice.value,
                    Events.IntOr(form.generalQuantity, Events.DefaultGeneralQuantity))]
      else [];
    var vip := if Events.PositivePrice(form.vipPrice)
      then [NewLine(Events.Vip, form.vipPrice.value, Events.IntOr(form.vipQuantity, Events.DefaultVipQuantity))]
      else [];
    var r := general + vip;
    assert SumSold(r) == 0 by {
      if |r| == 2 {
        assert r[1..] == vip && vip[1..] == [];
        assert SumSold(r[1..]) == r[1].sold + SumSold(vip[1..]);
      } else if |r| == 1 {
        assert r[1..] == [];
      }
    }
    r
  }

  /** What the last step sends besides the images. */
  datatype Draft = Draft(tickets: seq<TicketLine>, price: nat, capacity: nat)

  function DraftOf(form: Events.EventForm): (r: Draft)
    ensures r.tickets == DraftTickets(form)
    ensures form.generalPrice.Some? ==> r.price == form.generalPrice.value
    ensures form.generalPrice.None? ==> r.price == 0
    ensures r.capacity == Events.IntOr(form.venueCapacity, Events.DefaultCapacity)
  {
    Draft(DraftTickets(form), if form.generalPrice.Some? then form.generalPrice.value else 0,
          Events.IntOr(form.venueCapacity, Events.DefaultCapacity))
  }

  datatype Submitted = Advanced(wizard: Wizard) | Posted(draft: Draft)

  /** `onSubmit`: before the last step it only advances (re-validating);
      the request to the backend is made on the last step alone. */
  function Submit(w: Wizard, form: Events.EventForm, valid: bool, current: map<string, string>): (r: Submitted)
    ensures r.Posted? <==> w.step >= StepCount
    ensures r.Posted? ==> r.draft == DraftOf(form)
    ensures r.Advanced? ==> r.wizard == NextStep(w, valid, current)
  {
    if w.step < StepCount then Advanced(NextStep(w, valid, current)) else Posted(DraftOf(form))
  }

  /** From the first step, valid submissions reach the request on the
      fourth: three advances, then a post. */
  lemma PostOnlyOnLastStep(form: Events.EventForm, current: map<string, string>)
    ensures var w1 := Initial;
      var w2 := Submit(w1, form, true, current).wizard;
      var w3 := Submit(w2, form, true, current).wizard;
      var w4 := Submit(w3, form, true, current).wizard;
      Submit(w1, form, true, current).Advanced? && Submit(w2, form, true, current).Advanced?
      && Submit(w3, form, true, current).Advanced? && w4.step == StepCount
      && Submit(w4, form, true, current) == Posted(DraftOf(form))
  {
  }

  /** When General Admission is priced and the form is complete, the page
      sends exactly the catalogue, price and capacity the backend builds. */
  lemma DraftAgreesWithServer(form: Events.EventForm, organizer: Events.Organizer, uploaded: seq<string>, id: Id, now: int)
    requires Events.PositivePrice(form.generalPrice) && Events.Complete(form, organizer)
    ensures Events.CreateTickets(form) == Ok(DraftTickets(form))
    ensures Events.CreateEvent(form, organizer, uploaded, id, now).value.price == DraftOf(form).price
    ensures Events.CreateEvent(form, organizer, uploaded, id, now).value.venue.capacity == DraftOf(form).capacity
  {
    var t := DraftTickets(form);
    var c := Events.CreateTickets(form).value;
    assert |t| == |c|;
    if |t| == 2 {
      assert t == [t[0], t[1]] && c == [c[0], c[1]];
    } else {
      assert t == [t[0]] && c == [c[0]];
    }
  }

  /** Without a General Admission price the page still drafts a VIP-only
      event, which the backend refuses with 400. */
  lemma VipOnlyDraftRefused(form: Events.EventForm)
    requires form.generalPrice.None? && Events.PositivePrice(form.vipPrice)
    ensures |DraftTickets(form)| == 1 && DraftTickets(form)[0].typeName == Events.Vip
    ensures Events.CreateTickets(form).Err? && Events.CreateTickets(form).error.status == 400
  {
  }
}
