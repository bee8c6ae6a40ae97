/** The two selection rules of vulkan.c: picking a memory type for an
    allocation (getMemoryType) and picking the number of swapchain images
    (initSwapchain). Vulkan's 32-bit masks are `bv32`; counts are naturals
    kept within the range of uint32_t. */
module VulkanSelect {

  /** VK_MAX_MEMORY_TYPES: the size of the memoryTypes array. */
  const MaxMemoryTypes: nat := 32

  /** 2^32, the modulus of uint32_t arithmetic. */
  const Uint32Modulus: int := 0x1_0000_0000

  /** One element of VkPhysicalDeviceMemoryProperties::memoryTypes. */
  datatype MemoryType = MemoryType(propertyFlags: bv32, heapIndex: nat)

  /** VkPhysicalDeviceMemoryProperties, restricted to the memory types. */
  datatype MemoryProperties = MemoryProperties(memoryTypeCount: nat, memoryTypes: seq<MemoryType>) {
    /** What a Vulkan implementation reports: a fixed array of 32 entries of
        which the first memoryTypeCount are meaningful. */
    predicate Valid() {
      |memoryTypes| == MaxMemoryTypes && memoryTypeCount <= MaxMemoryTypes
    }
  }

  /** Memory type `i` satisfies an allocation whose acceptable types are the
      set bits of `typeFilter` and which needs every flag of `properties`. */
  predicate Suitable(memory: MemoryProperties, typeFilter: bv32, properties: bv32, i: nat)
    requires memory.Valid() && i < memory.memoryTypeCount
  {
    typeFilter & (1 << i) != 0
    && memory.memoryTypes[i].propertyFlags & properties == properties
  }

  /** getMemoryType: scan the memory types in order and report the first
      suitable one through `memoryTypeIndex`; when there is none, report
      failure and hand the caller's index back untouched. */
  method GetMemoryType(memory: MemoryProperties, typeFilter: bv32, properties: bv32, memoryTypeIndex: nat)
    returns (found: bool, selectedIndex: nat)
    requires memory.Valid()
    ensures found <==> exists i :: 0 <= i < memory.memoryTypeCount && Suitable(memory, typeFilter, properties, i)
    ensures found ==> selectedIndex < memory.memoryTypeCount
                      && Suitable(memory, typeFilter, properties, selectedIndex)
                      && forall j :: 0 <= j < selectedIndex ==> !Suitable(memory, typeFilter, properties, j)
    ensures !found ==> selectedIndex == memoryTypeIndex
  {
    selectedIndex := memoryTypeIndex;
    var i := 0;
    while i < memory.memoryTypeCount
      invariant 0 <= i <= memory.memoryTypeCount
      invariant forall j :: 0 <= j < i ==> !Suitable(memory, typeFilter, properties, j)
    {
      if typeFilter & (1 << i) != 0
         && memory.memoryTypes[i].propertyFlags & properties == properties {
        assert Suitable(memory, typeFilter, properties, i);
        return true, i;
      }
      i := i + 1;
    }
    return false, selectedIndex;
  }

  /** The fields of VkSurfaceCapabilitiesKHR the image count depends on. */
  datatype SurfaceCapabilities = SurfaceCapabilities(minImageCount: nat, maxImageCount: nat) {
    /** What a surface reports: uint32_t values, at least one image, and a
        maximum that is either 0 (no limit) or not below the minimum. */
    predicate Valid() {
      && 1 <= minImageCount < Uint32Modulus
      && maxImageCount < Uint32Modulus
      && (maxImageCount == 0 || minImageCount <= maxImageCount)
    }
  }

  /** The number of images initSwapchain asks for: one more than the
      surface's minimum (in uint32_t arithmetic), capped by the maximum
      unless the maximum is 0, which stands for "no limit". */
  function SwapchainImageCount(caps: SurfaceCapabilities): (imageCount: nat)
    requires caps.minImageCount < Uint32Modulus && caps.maxImageCount < Uint32Modulus
    ensures imageCount < Uint32Modulus
    ensures caps.maxImageCount > 0 ==> imageCount <= caps.maxImageCount
    ensures caps.minImageCount + 1 < Uint32Modulus && caps.maxImageCount == 0
            ==> imageCount == caps.minImageCount + 1
    ensures caps.minImageCount + 1 < Uint32Modulus && caps.maxImageCount > caps.minImageCount
            ==> imageCount == caps.minImageCount + 1
    ensures caps.minImageCount + 1 < Uint32Modulus && 0 < caps.maxImageCount <= caps.minImageCount
            ==> imageCount == caps.maxImageCount
  {
    var wanted := (caps.minImageCount + 1) % Uint32Modulus;
    if caps.maxImageCount == 0 then wanted
    else if wanted <= caps.maxImageCount then wanted
    else caps.maxImageCount
  }

  /** The image-count selection inside initSwapchain: start from one more
      than the minimum and lower it to the maximum when there is one and it
      is exceeded. */
  method SelectImageCount(caps: SurfaceCapabilities) returns (imageCount: nat)
    requires caps.minImageCount < Uint32Modulus && caps.maxImageCount < Uint32Modulus
    ensures imageCount == SwapchainImageCount(caps)
  {
    imageCount := (caps.minImageCount + 1) % Uint32Modulus;
    if caps.maxImageCount > 0 && imageCount > caps.maxImageCount {
      imageCount := caps.maxImageCount;
    }
  }

  /** For every surface whose minimum is below the uint32_t maximum, the
      count asked for meets the swapchain creation rules of the Vulkan
      specification (Window System Integration chapter): at least the
      surface's minImageCount and, when maxImageCount is not 0, at most it. */
  lemma ImageCountWithinSurfaceLimits(caps: SurfaceCapabilities)
    requires caps.Valid() && caps.minImageCount + 1 < Uint32Modulus
    ensures caps.minImageCount <= SwapchainImageCount(caps)
    ensures caps.maxImageCount != 0 ==> SwapchainImageCount(caps) <= caps.maxImageCount
  {
  }

  /** A surface reporting the largest uint32_t minimum makes `minImageCount + 1`
      wrap to 0, so the count asked for falls below the minimum. */
  lemma ImageCountWrapsAtUint32Max()
    ensures SwapchainImageCount(SurfaceCapabilities(Uint32Modulus - 1, 0)) == 0
  {
  }
}
