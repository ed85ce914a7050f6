/**
 * `merge_datasets` of the command-line ETL pipeline: it first rewrites the
 * caller's demand frame (its `demand_index` column is recomputed from
 * `demand_totals` when that column exists), then left-joins the part rows with
 * the demand columns on `pn` and de-duplicates on `pn_clean`.
 */
module EtlPipeline {
  import opened Wrappers
  import opened Frames
  import opened Merge
  import opened DataLoader

  /** The demand frame after the in-place `demand_index` rewrite. */
  function WithDemandIndex(demand: Frame, extractDemandIndex: Cell -> Cell): (r: Frame)
    requires WellFormed(demand)
    ensures WellFormed(r) && r.n == demand.n
    ensures "demand_totals" in demand.cols ==>
              "demand_index" in r.cols && r.cols["demand_index"] == ApplyCells(demand.cols["demand_totals"], extractDemandIndex)
    ensures forall c :: c in demand.cols && (c != "demand_index" || "demand_totals" !in demand.cols) ==>
              c in r.cols && r.cols[c] == demand.cols[c]
    ensures r.cols.Keys == demand.cols.Keys + (if "demand_totals" in demand.cols then {"demand_index"} else {})
  {
    if "demand_totals" in demand.cols then
      WithCol(demand, "demand_index", ApplyCells(demand.cols["demand_totals"], extractDemandIndex))
    else demand
  }

  /** The merged and de-duplicated frame, or the error the merge raises. */
  function Merged(panda: Frame, demand: Frame): (r: Result<Frame, MergeError>)
    requires WellFormed(panda) && WellFormed(demand)
    ensures r.Success? <==> MergeResult(panda, demand).Success?
    ensures r.Success? ==> WellFormed(r.value) && r.value.names == MergedNames(panda)
                           && r.value.n <= MergeResult(panda, demand).value.n
  {
    match MergeResult(panda, demand)
    case Failure(e) => Failure(e)
    case Success(m) => Success(Deduplicated(m))
  }

  /** `merge_datasets(panda_df, demand_df)`; the demand frame is changed for the caller too. */
  method MergeDatasets(panda: Frame, demand: FrameRef, extractDemandIndex: Cell -> Cell) returns (r: Result<Frame, MergeError>)
    requires WellFormed(panda) && WellFormed(demand.frame)
    modifies demand
    ensures demand.frame == WithDemandIndex(old(demand.frame), extractDemandIndex)
    ensures r == Merged(panda, demand.frame)
  {
    if "demand_totals" in demand.frame.cols {
      demand.SetColumn("demand_index", ApplyCells(demand.frame.cols["demand_totals"], extractDemandIndex));
    }
    var merged := MergeResult(panda, demand.frame);
    if merged.Failure? {
      return Failure(merged.error);
    }
    var m := merged.value;
    if "pn_clean" in m.cols {
      m := Deduplicated(m);
    }
    r := Success(m);
  }

  /**
   * With unique demand part numbers and no `pn_clean` column, the pipeline
   * keeps exactly the part rows, in order, and each carries its own part
   * columns.
   */
  lemma MergedKeepsParts(panda: Frame, demand: Frame, c: string)
    requires WellFormed(panda) && WellFormed(demand) && Merged(panda, demand).Success?
    requires "pn_clean" !in panda.cols && UniqueKeys(demand.cols["pn"])
    requires c in panda.cols && c != "demand_all_time" && c != "demand_index"
    ensures var r := Merged(panda, demand).value;
            r.n == panda.n && c in r.cols && r.cols[c] == panda.cols[c]
  {
    var m := MergeResult(panda, demand).value;
    var rows := Rows(panda, demand);
    UniqueKeysKeepLength(panda.cols["pn"], demand.cols["pn"]);
    MergedRows(panda, demand);
    MergedLeftColumn(panda, demand, c);
    NoPnClean(panda);
    assert "pn_clean" !in m.cols;
    assert LeftColumn(panda, rows, c) == panda.cols[c];
  }

  /** Without `pn_clean` among the part columns, the merged names do not hold it either. */
  lemma NoPnClean(panda: Frame)
    requires WellFormed(panda) && "pn_clean" !in panda.cols
    ensures "pn_clean" !in MergedNames(panda)
  {
    var names := MergedNames(panda);
    forall k | 0 <= k < |names|
      ensures names[k] != "pn_clean"
    {
      if k < |panda.names| {
        assert names[k] == LeftName(panda.names[k]);
        assert panda.names[k] in panda.cols;
      } else {
        assert names[k][0] == 'd' && "pn_clean"[0] == 'p';
      }
    }
  }

  /**
   * When the demand frame has `demand_totals`, a part row matched to a demand
   * row gets the demand index extracted from that demand row's totals; an
   * unmatched part row gets a missing demand index.
   */
  lemma DemandIndexFromTotals(panda: Frame, demand: Frame, extractDemandIndex: Cell -> Cell)
    requires WellFormed(panda) && WellFormed(demand) && "demand_totals" in demand.cols
    requires "demand_all_time" !in panda.cols && "demand_index" !in panda.cols
    requires MergeResult(panda, WithDemandIndex(demand, extractDemandIndex)).Success?
    ensures var d := WithDemandIndex(demand, extractDemandIndex);
            var m, rows := MergeResult(panda, d).value, Rows(panda, d);
            forall t :: 0 <= t < m.n ==>
              m.cols["demand_index"][t]
              == if rows[t].right.Some? then extractDemandIndex(demand.cols["demand_totals"][rows[t].right.value]) else Missing
  {
    var d := WithDemandIndex(demand, extractDemandIndex);
    MergedRows(panda, d);
    MergedDemandColumn(panda, d, "demand_index");
  }
}
