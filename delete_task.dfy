// The delete task: a filter expression becomes a query plan whose only output
// field is the primary key.
module DeleteTask {
  import opened Wrappers
  import opened Schema
  import MilvusStatus
  import StringUtil
  import SchemaUtil

  /**
   * The parts of plan.PlanNode the task writes: whether the query predicates
   * were filled by the parser, and the output field ids.
   */
  datatype DeletePlan = DeletePlan(hasPredicates: bool, outputFieldIds: seq<int>)

  /**
   * DeleteTask::Process over an empty plan. The expression parser is not part
   * of this model: `exprParses` is its verdict on the expression.
   */
  method Process(expr: string, schema: CollectionSchema, exprParses: bool)
    returns (s: MilvusStatus.Status, plan: DeletePlan)
    ensures StringUtil.Trim(expr) == "" ==> s == MilvusStatus.ParameterInvalid("") && plan == DeletePlan(false, [])
    ensures StringUtil.Trim(expr) != "" && !exprParses ==> s == SchemaUtil.ParseExpr(expr, false) && !plan.hasPredicates
    ensures StringUtil.Trim(expr) != "" && exprParses && SchemaUtil.GetPkId(schema).None? ==>
              s == MilvusStatus.CollectionIllegalSchema("") && plan == DeletePlan(true, [])
    ensures StringUtil.Trim(expr) != "" && exprParses && SchemaUtil.GetPkId(schema).Some? ==>
              s == MilvusStatus.Ok() && plan == DeletePlan(true, [SchemaUtil.GetPkId(schema).value])
    ensures s.IsOk() <==> StringUtil.Trim(expr) != "" && exprParses && SchemaUtil.GetPkId(schema).Some?
    ensures |plan.outputFieldIds| <= 1
  {
    plan := DeletePlan(false, []);
    if StringUtil.Trim(expr) == "" {
      return MilvusStatus.ParameterInvalid(""), plan;
    }
    s := SchemaUtil.ParseExpr(expr, exprParses);
    if !s.IsOk() {
      return;
    }
    plan := plan.(hasPredicates := true);
    var pkId := SchemaUtil.GetPkId(schema);
    if pkId.None? {
      return MilvusStatus.CollectionIllegalSchema(""), plan;
    }
    plan := plan.(outputFieldIds := plan.outputFieldIds + [pkId.value]);
    s := MilvusStatus.Ok();
  }
}
