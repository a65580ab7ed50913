/** The render graph as data: named passes declaring which named image or
    buffer versions they use, how, and under which name they hand a resource
    on. Scheduling, barriers and execution belong to the graph library and are
    not modelled; what is checked is the names that connect passes. */
module RenderGraph {
  import opened Common

  datatype Access =
    | ColorWrite
    | DepthStencilRW
    | FragmentSampled
    | FragmentWrite
    | ComputeSampled
    | ComputeWrite
    | TransferRead
    | TransferWrite
    | MemoryWrite

  /** `"in"_image >> access` or `"in"_image >> access >> "out"`. */
  datatype Resource = Resource(name: string, access: Access, output: Option<string>)

  datatype Pass = Pass(name: string, resources: seq<Resource>)

  function Use(name: string, access: Access): Resource
  {
    Resource(name, access, None)
  }

  function Produce(name: string, access: Access, output: string): Resource
  {
    Resource(name, access, Some(output))
  }
}
